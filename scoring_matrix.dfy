/** The 5x5 scoring matrix `int8_t mat[25]`: built from the match score and
    mismatch penalty by a counter-driven loop, optionally overwritten by the
    values of a matrix file (`fill_matrix`). Row and column 4 are the
    ambiguous base N. */
module ScoringMatrix {
  import opened Wrappers
  import opened MachineInts

  const Size: nat := 25

  /** Entry (row, col) of the matrix the build loop is meant to produce:
      the match score on the ACGT diagonal, minus the mismatch penalty elsewhere among ACGT, and 0
      in the N row and column. */
  function Entry(matchScore: int, mismatchScore: int, row: nat, col: nat): int8 {
    if row < 4 && col < 4 then
      if row == col then ToInt8(matchScore) else ToInt8(-mismatchScore)
    else 0
  }

  /** Every entry of `mat`, stored row-major with stride 5, is `Entry`. */
  predicate IsBuilt(mat: seq<int8>, matchScore: int, mismatchScore: int) {
    |mat| == Size && forall n :: 0 <= n < Size ==> mat[n] == Entry(matchScore, mismatchScore, n / 5, n % 5)
  }

  /** The matrix `IsBuilt` describes. */
  function Matrix(matchScore: int, mismatchScore: int): (mat: seq<int8>)
    ensures IsBuilt(mat, matchScore, mismatchScore)
  {
    seq(Size, n requires 0 <= n < Size => Entry(matchScore, mismatchScore, n / 5, n % 5))
  }

  /** There is only one built matrix for given scores. */
  lemma BuiltIsMatrix(mat: seq<int8>, matchScore: int, mismatchScore: int)
    requires IsBuilt(mat, matchScore, mismatchScore)
    ensures mat == Matrix(matchScore, mismatchScore)
  {
  }

  lemma DivMod5(i: nat, j: nat)
    requires j < 5
    ensures (5 * i + j) / 5 == i && (5 * i + j) % 5 == j
  {
  }

  /** The build loop (src/main.c:306-312, main.c:98-104): four rows of four
      scores followed by a 0 for N, then the five zeros of the N row; `k`
      counts the entries written. */
  method Build(matchScore: int, mismatchScore: int) returns (mat: seq<int8>)
    ensures IsBuilt(mat, matchScore, mismatchScore)
  {
    var a := new int8[Size];
    var i, k := 0, 0;
    while i < 4
      invariant 0 <= i <= 4 && k == 5 * i
      invariant forall n :: 0 <= n < k ==> a[n] == Entry(matchScore, mismatchScore, n / 5, n % 5)
    {
      var j := 0;
      while j < 4
        invariant 0 <= j <= 4 && k == 5 * i + j
        invariant forall n :: 0 <= n < k ==> a[n] == Entry(matchScore, mismatchScore, n / 5, n % 5)
      {
        DivMod5(i, j);
        a[k] := if i == j then ToInt8(matchScore) else ToInt8(-mismatchScore);
        k, j := k + 1, j + 1;
      }
      DivMod5(i, 4);
      a[k] := 0; // ambiguous base
      k, i := k + 1, i + 1;
    }
    var j := 0;
    while j < 5
      invariant 0 <= j <= 5 && k == 20 + j
      invariant forall n :: 0 <= n < k ==> a[n] == Entry(matchScore, mismatchScore, n / 5, n % 5)
    {
      DivMod5(4, j);
      a[k] := 0;
      k, j := k + 1, j + 1;
    }
    mat := a[..];
  }

  /** Entry (i, j) of a matrix stored with stride 5. */
  function At(mat: seq<int8>, i: nat, j: nat): int8
    requires |mat| == Size && i < 5 && j < 5
  {
    mat[5 * i + j]
  }

  /** The layout of a built matrix: `mat[5i+j]` is the match score when
      i == j and minus the mismatch penalty otherwise (both stored as
      `int8_t`), for i, j < 4; `mat[5i+4]` and the whole last row are 0. */
  lemma BuiltLayout(mat: seq<int8>, matchScore: int, mismatchScore: int)
    requires IsBuilt(mat, matchScore, mismatchScore)
    ensures forall i, j :: 0 <= i < 4 && 0 <= j < 4 ==>
      At(mat, i, j) == if i == j then ToInt8(matchScore) else ToInt8(-mismatchScore)
    ensures forall i :: 0 <= i < 5 ==> At(mat, i, 4) == 0 && At(mat, 4, i) == 0
  {
    forall i: nat, j: nat | i < 5 && j < 5
      ensures At(mat, i, j) == Entry(matchScore, mismatchScore, i, j)
    {
      DivMod5(i, j);
    }
  }

  /** With the default scores (+1, -3) nothing wraps: the diagonal is 1, the
      rest of the ACGT block -3. */
  lemma DefaultScores(mat: seq<int8>)
    requires IsBuilt(mat, 1, 3)
    ensures forall i, j :: 0 <= i < 4 && 0 <= j < 4 ==> At(mat, i, j) == if i == j then 1 else -3
    ensures forall i :: 0 <= i < 5 ==> At(mat, i, 4) == 0 && At(mat, 4, i) == 0
  {
    BuiltLayout(mat, 1, 3);
  }

  /** Scores outside the `int8_t` range wrap: validation accepts a match
      score of 200, and the diagonal then holds -56. */
  lemma LargeMatchScoreWraps(mat: seq<int8>)
    requires IsBuilt(mat, 200, 3)
    ensures At(mat, 0, 0) == -56
  {
    BuiltLayout(mat, 200, 3);
  }

  // ---------------------------------------------------------------------
  // fill_matrix. The file is given as its lines, each already cut by
  // `strtok(buffer, ",\t")` into tokens and converted by `atoi`. '\n' is not
  // a delimiter, so a blank line is the one token "\n", read as `[0]`; only a
  // line of ',' and '\t' alone without a newline (the last one) is `[]`.

  datatype FillError =
    | TooManyValues      // "Too many values in %s"
    | WrongCount(found: int) // "Incorrect # of values (found %d, want 16 or 25) in %s"

  /** All tokens of the file in reading order. */
  function Flatten(lines: seq<seq<int>>): (values: seq<int>)
  {
    if lines == [] then [] else Flatten(lines[..|lines| - 1]) + lines[|lines| - 1]
  }

  /** The count test as written, `i != 16 || i != 25`. */
  predicate CountRejectedAsWritten(i: int) {
    i != 16 || i != 25
  }

  /** The count test as intended, `i != 16 && i != 25`. */
  predicate CountRejected(i: int) {
    i != 16 && i != 25
  }

  /** No count passes the test as written, 16 and 25 included. */
  lemma CountTestAsWrittenRejectsAll(i: int)
    ensures CountRejectedAsWritten(i)
    ensures CountRejectedAsWritten(16) && CountRejectedAsWritten(25)
  {
  }

  /** The intended test passes exactly a 4x4 or a 5x5 matrix. */
  lemma CountTestAccepts(i: int)
    ensures !CountRejected(i) <==> i == 16 || i == 25
  {
  }

  /** The index of the first line that has a token (the first `pch` that
      is not NULL), if any. */
  function FirstToken(lines: seq<seq<int>>): (f: Option<nat>)
    ensures f.Some? ==> f.value < |lines| && 0 < |lines[f.value]|
    ensures f.Some? ==> forall l :: 0 <= l < f.value ==> lines[l] == []
    ensures f.None? ==> forall l :: 0 <= l < |lines| ==> lines[l] == []
  {
    if lines == [] then None
    else if lines[0] != [] then Some(0)
    else match FirstToken(lines[1..]) {
      case None => None
      case Some(f) => Some(f + 1)
    }
  }

  /** `fill_matrix` as written (src/main.c:58-81, main.c:30-53). The inner
      loop never advances `pch`, so the first token of the first non-empty
      line is stored into every entry until the 26th write is refused; a
      file without tokens reaches the count test, which refuses every count.
      No file is ever accepted. */
  method FillMatrixAsWritten(mat: array<int8>, lines: seq<seq<int>>) returns (r: Outcome<FillError>)
    requires mat.Length == Size
    modifies mat
    ensures r.Fail?
    ensures FirstToken(lines).Some? ==>
      r == Fail(TooManyValues) && mat[..] == seq(Size, _ => ToInt8(lines[FirstToken(lines).value][0]))
    ensures FirstToken(lines).None? ==> r == Fail(WrongCount(0)) && mat[..] == old(mat[..])
  {
    var i := 0;
    var l := 0;
    while l < |lines|
      invariant 0 <= l <= |lines| && i == 0
      invariant forall m :: 0 <= m < l ==> lines[m] == []
      invariant mat[..] == old(mat[..])
    {
      var pch: Option<int> := if lines[l] != [] then Some(lines[l][0]) else None;
      while pch.Some?
        invariant 0 <= i <= Size
        invariant pch.Some? ==> lines[l] != [] && pch.value == lines[l][0]
        invariant pch.None? ==> i == 0
        invariant forall n :: 0 <= n < i ==> mat[n] == ToInt8(lines[l][0])
        invariant forall n :: i <= n < Size ==> mat[n] == old(mat[n])
        decreases Size - i
      {
        if Size <= i {
          assert FirstToken(lines) == Some(l) by { FirstTokenAt(lines, l); }
          assert mat[..] == seq(Size, _ => ToInt8(lines[l][0]));
          return Fail(TooManyValues);
        }
        mat[i] := ToInt8(pch.value);
        i := i + 1;
      }
      l := l + 1;
    }
    r := if CountRejectedAsWritten(i) then Fail(WrongCount(i)) else Pass;
  }

  lemma FirstTokenAt(lines: seq<seq<int>>, l: nat)
    requires l < |lines| && lines[l] != []
    requires forall m :: 0 <= m < l ==> lines[m] == []
    ensures FirstToken(lines) == Some(l)
  {
    if l > 0 {
      FirstTokenAt(lines[1..], l - 1);
    }
  }

  /** `mat` with its first `|values|` entries replaced by the values, each
      stored into an `int8_t`. */
  function Overwrite(mat: seq<int8>, values: seq<int>): (r: seq<int8>)
    requires |values| <= |mat|
    ensures |r| == |mat|
    ensures forall n :: 0 <= n < |values| ==> r[n] == ToInt8(values[n])
    ensures forall n :: |values| <= n < |mat| ==> r[n] == mat[n]
  {
    seq(|mat|, n requires 0 <= n < |mat| => if n < |values| then ToInt8(values[n]) else mat[n])
  }

  /** What loading a matrix file does to `mat`, and whether it succeeds,
      with both defects of `FillMatrixAsWritten` corrected: every token is
      read, a 26th value is refused, and the count test passes 16 and 25. */
  function Load(mat: seq<int8>, lines: seq<seq<int>>): (r: (seq<int8>, Outcome<FillError>))
    requires |mat| == Size
    ensures |r.0| == Size
    ensures r.1 == Pass <==> |Flatten(lines)| == 16 || |Flatten(lines)| == 25
    ensures r.1 == Fail(TooManyValues) <==> Size < |Flatten(lines)|
  {
    var values := Flatten(lines);
    if Size < |values| then (Overwrite(mat, values[..Size]), Fail(TooManyValues))
    else (Overwrite(mat, values), if CountRejected(|values|) then Fail(WrongCount(|values|)) else Pass)
  }

  lemma FlattenSnoc(lines: seq<seq<int>>, l: nat)
    requires l < |lines|
    ensures Flatten(lines[..l + 1]) == Flatten(lines[..l]) + lines[l]
  {
    assert lines[..l + 1][..l] == lines[..l];
  }

  /** `fill_matrix` with `pch = strtok(NULL, ",\t")` at the end of the inner
      loop and the count test `i != 16 && i != 25`. */
  method FillMatrix(mat: array<int8>, lines: seq<seq<int>>) returns (r: Outcome<FillError>)
    requires mat.Length == Size
    modifies mat
    ensures (mat[..], r) == Load(old(mat[..]), lines)
  {
    var i := 0;
    var l := 0;
    while l < |lines|
      invariant 0 <= l <= |lines|
      invariant i == |Flatten(lines[..l])| <= Size
      invariant mat[..] == Overwrite(old(mat[..]), Flatten(lines[..l]))
    {
      FlattenSnoc(lines, l);
      var t := 0;
      while t < |lines[l]|
        invariant 0 <= t <= |lines[l]|
        invariant i == |Flatten(lines[..l])| + t <= Size
        invariant mat[..] == Overwrite(old(mat[..]), Flatten(lines[..l]) + lines[l][..t])
      {
        if Size <= i {
          TooManyValuesAt(lines, l, t);
          return Fail(TooManyValues);
        }
        mat[i] := ToInt8(lines[l][t]);
        assert lines[l][..t + 1] == lines[l][..t] + [lines[l][t]];
        i, t := i + 1, t + 1;
      }
      assert lines[l][..t] == lines[l];
      l := l + 1;
    }
    assert lines[..l] == lines;
    r := if CountRejected(i) then Fail(WrongCount(i)) else Pass;
  }

  /** Reaching the 26th value means the file holds more than 25, and the
      first 25 have been stored. */
  lemma TooManyValuesAt(lines: seq<seq<int>>, l: nat, t: nat)
    requires l < |lines| && t < |lines[l]|
    requires |Flatten(lines[..l])| + t == Size
    ensures Size < |Flatten(lines)|
    ensures (Flatten(lines[..l]) + lines[l][..t]) == Flatten(lines)[..Size]
  {
    FlattenPrefix(lines, l + 1);
    FlattenSnoc(lines, l);
    assert Flatten(lines[..l + 1]) == Flatten(lines[..l]) + lines[l][..t] + lines[l][t..];
  }

  /** The tokens of the first `l` lines are a prefix of all tokens. */
  lemma {:induction false} FlattenPrefix(lines: seq<seq<int>>, l: nat)
    requires l <= |lines|
    ensures Flatten(lines[..l]) <= Flatten(lines)
    decreases |lines| - l
  {
    if l < |lines| {
      FlattenPrefix(lines, l + 1);
      FlattenSnoc(lines, l);
    } else {
      assert lines[..l] == lines;
    }
  }

  /** One line of comma-separated values per matrix row. */
  function Rows(mat: seq<int8>): (lines: seq<seq<int>>)
    requires |mat| % 5 == 0
    ensures |lines| == |mat| / 5
    decreases |mat|
  {
    if mat == [] then [] else Rows(mat[..|mat| - 5]) + [mat[|mat| - 5..]]
  }

  lemma {:induction false} FlattenRows(mat: seq<int8>)
    requires |mat| % 5 == 0
    ensures Flatten(Rows(mat)) == mat
    decreases |mat|
  {
    if mat != [] {
      var lines := Rows(mat);
      assert lines[..|lines| - 1] == Rows(mat[..|mat| - 5]);
      FlattenRows(mat[..|mat| - 5]);
      assert mat[..|mat| - 5] + mat[|mat| - 5..] == mat;
    }
  }

  /** Writing a 5x5 matrix out as five lines of five values and loading the
      file gives back that matrix, whatever `mat` held before. */
  lemma LoadRoundTrip(before: seq<int8>, mat: seq<int8>)
    requires |before| == Size && |mat| == Size
    ensures Load(before, Rows(mat)) == (mat, Pass)
  {
    FlattenRows(mat);
    assert Overwrite(before, mat) == mat;
  }

  /** A file of a single value: as written it is copied into all 25
      entries and refused as too many; corrected it is refused for its count
      and stored only in entry 0. */
  lemma OneValueFile(mat: seq<int8>)
    requires |mat| == Size
    ensures FirstToken([[7]]) == Some(0)
    ensures Load(mat, [[7]]) == (mat[0 := 7], Fail(WrongCount(1)))
  {
    assert Flatten([[7]]) == [7];
    assert Overwrite(mat, [7]) == mat[0 := 7];
  }

  /** A 4x4 file is accepted but stored linearly into entries 0..15 of the
      stride-5 layout: its fifth value lands in the (A, N) slot and its
      sixteenth in (T, A). */
  lemma FourByFourStoredLinearly(mat: seq<int8>, values: seq<int8>)
    requires |mat| == Size && |values| == 16
    ensures Load(mat, [values]).1 == Pass
    ensures At(Load(mat, [values]).0, 0, 4) == values[4]
    ensures At(Load(mat, [values]).0, 3, 0) == values[15]
  {
    assert Flatten([values]) == values;
  }
}
