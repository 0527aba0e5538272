/** The per-record dispatcher of src/main.c (`align`, `get_cigar`) and the
    part of its `main` that builds the scoring matrix and writes the header.
    A record is a query and a target line; `align` strips and encodes them in
    place, runs the kernel of the selected mode and writes one tab-separated
    line. End coordinates are exclusive: a hit is the window
    [qlb, qle) x [tlb, tle). */
module Dispatch {
  import opened Wrappers
  import opened MachineInts
  import opened DecimalText
  import opened Tsv
  import opened BaseEncoding
  import opened ScoringMatrix
  import opened Options
  import opened Cigar
  import opened Ksw
  import opened Buffers

  /** The values `align` prints: the score, the window and the CIGAR (empty
      unless one was asked for). */
  datatype Alignment = Alignment(score: int, qlb: int, qle: int, tlb: int, tle: int, cigar: seq<uint32>)

  /** Why a record ends the run. `WindowOutsideRead` and `CigarOpOutOfRange`
      stand for what C leaves undefined: a kernel window that does not lie in
      the read, and a CIGAR operation past the end of "MID". */
  datatype AlignError =
    | UnknownMode(mode: int)
    | ScoreMismatch(prevScore: int, newScore: int, qlb: int, qle: int, tlb: int, tle: int)
    | WindowOutsideRead(qlb: int, qle: int, tlb: int, tle: int)
    | CigarOpOutOfRange

  /** `[lo, hi)` lies within a read of length `n`. */
  predicate InRead(n: nat, lo: int, hi: int) {
    0 <= lo <= hi <= n
  }

  /** `get_cigar`: aligns the window globally and returns its CIGAR, but only
      if the window's score is the score the first pass reported; otherwise
      the run ends ("Bug: prev_score ..."). */
  function GetCigar(q: seq<byte>, t: seq<byte>, opt: MainOpt, mat: seq<int8>,
                    qlb: int, qle: int, tlb: int, tle: int, prevScore: int, k: Kernels)
    : (r: Result<seq<uint32>, AlignError>)
    ensures r.Success? <==>
      && InRead(|q|, qlb, qle) && InRead(|t|, tlb, tle)
      && k.global(q[qlb..qle], t[tlb..tle], mat, opt.gapOpen, opt.gapExtend, opt.bandWidth).score == prevScore
    ensures r.Success? ==>
      k.global(q[qlb..qle], t[tlb..tle], mat, opt.gapOpen, opt.gapExtend, opt.bandWidth)
        == GlobalHit(prevScore, r.value)
    ensures r.Failure? && InRead(|q|, qlb, qle) && InRead(|t|, tlb, tle) ==>
      r.error.ScoreMismatch? && r.error.prevScore == prevScore
  {
    if !(InRead(|q|, qlb, qle) && InRead(|t|, tlb, tle)) then Failure(WindowOutsideRead(qlb, qle, tlb, tle))
    else
      var g := k.global(q[qlb..qle], t[tlb..tle], mat, opt.gapOpen, opt.gapExtend, opt.bandWidth);
      if g.score != prevScore then Failure(ScoreMismatch(prevScore, g.score, qlb, qle, tlb, tle))
      else Success(g.cigar)
  }

  /** The reported window, aligned globally on its own, gives the reported
      score and CIGAR: what `get_cigar` guarantees of every record it lets
      through. */
  predicate SelfConsistent(q: seq<byte>, t: seq<byte>, opt: MainOpt, mat: seq<int8>, a: Alignment, k: Kernels) {
    && InRead(|q|, a.qlb, a.qle) && InRead(|t|, a.tlb, a.tle)
    && k.global(q[a.qlb..a.qle], t[a.tlb..a.tle], mat, opt.gapOpen, opt.gapExtend, opt.bandWidth)
      == GlobalHit(a.score, a.cigar)
  }

  /** The CIGAR of the window when one is asked for, with the score check. */
  function WithCigar(q: seq<byte>, t: seq<byte>, opt: MainOpt, mat: seq<int8>, a: Alignment, k: Kernels)
    : (r: Result<Alignment, AlignError>)
    ensures r.Success? <==> !opt.addCigar || GetCigar(q, t, opt, mat, a.qlb, a.qle, a.tlb, a.tle, a.score, k).Success?
    ensures r.Success? ==> r.value.(cigar := a.cigar) == a
    ensures !opt.addCigar ==> r == Success(a)
    ensures opt.addCigar && GetCigar(q, t, opt, mat, a.qlb, a.qle, a.tlb, a.tle, a.score, k).Failure? ==>
      r == Failure(GetCigar(q, t, opt, mat, a.qlb, a.qle, a.tlb, a.tle, a.score, k).error)
    ensures r.Success? && opt.addCigar ==> SelfConsistent(q, t, opt, mat, r.value, k)
  {
    if !opt.addCigar then Success(a)
    else match GetCigar(q, t, opt, mat, a.qlb, a.qle, a.tlb, a.tle, a.score, k)
      case Failure(e) => Failure(e)
      case Success(cigar) => Success(a.(cigar := cigar))
  }

  /** The mode switch of `align` (src/main.c:213-247) on the encoded reads. */
  function AlignEncoded(q: seq<byte>, t: seq<byte>, opt: MainOpt, mat: seq<int8>, xtra: bv32, k: Kernels)
    : (r: Result<Alignment, AlignError>)
    // Any other mode ends the run, the only failure besides the CIGAR check.
    ensures r == Failure(UnknownMode(opt.alignmentMode)) <==> !(0 <= opt.alignmentMode <= 3)
    ensures r.Failure? && !r.error.UnknownMode? ==> opt.addCigar && (opt.alignmentMode == 0 || opt.alignmentMode == 2)
    // local: the kernel's inclusive ends become exclusive.
    ensures opt.alignmentMode == 0 && r.Success? ==>
      var h := k.align(q, t, mat, opt.gapOpen, opt.gapExtend, xtra);
      && r.value.score == h.score
      && r.value.qlb == h.qb && r.value.qle == h.qe + 1 && r.value.tlb == h.tb && r.value.tle == h.te + 1
      && r.value.qle - r.value.qlb == h.qe - h.qb + 1 && r.value.tle - r.value.tlb == h.te - h.tb + 1
    // glocal: the whole query, the target window the kernel chose.
    ensures opt.alignmentMode == 1 ==>
      var g := k.glocal(q, t, mat, opt.gapOpen, opt.gapExtend, opt.bandWidth);
      && r.Success?
      && r.value == Alignment(g.score, 0, |q|, g.tlb, g.tle, if opt.addCigar then g.cigar else [])
      && q[r.value.qlb..r.value.qle] == q
    // extend: both windows start at 0.
    ensures opt.alignmentMode == 2 && r.Success? ==>
      var e := k.extend(q, t, mat, opt.gapOpen, opt.gapExtend, opt.bandWidth, opt.startScore);
      && r.value.score == e.score
      && r.value.qlb == 0 && r.value.tlb == 0 && r.value.qle == e.qle && r.value.tle == e.tle
    // global: both reads whole.
    ensures opt.alignmentMode == 3 ==>
      var g := k.global(q, t, mat, opt.gapOpen, opt.gapExtend, opt.bandWidth);
      && r.Success?
      && r.value == Alignment(g.score, 0, |q|, 0, |t|, if opt.addCigar then g.cigar else [])
      && q[r.value.qlb..r.value.qle] == q && t[r.value.tlb..r.value.tle] == t
    // Without a CIGAR the local and extend modes always produce a record.
    ensures 0 <= opt.alignmentMode <= 3 && !opt.addCigar ==> r.Success? && r.value.cigar == []
    // A local or extend record with a CIGAR passed the re-alignment check.
    ensures r.Success? && opt.addCigar && (opt.alignmentMode == 0 || opt.alignmentMode == 2) ==>
      SelfConsistent(q, t, opt, mat, r.value, k)
    // With a CIGAR, local and extend produce exactly what `get_cigar`'s check
    // on the kernel's window gives: the record when it agrees, its error otherwise.
    ensures opt.alignmentMode == 0 && opt.addCigar ==>
      var h := k.align(q, t, mat, opt.gapOpen, opt.gapExtend, xtra);
      r == WithCigar(q, t, opt, mat, Alignment(h.score, h.qb, h.qe + 1, h.tb, h.te + 1, []), k)
    ensures opt.alignmentMode == 2 && opt.addCigar ==>
      var e := k.extend(q, t, mat, opt.gapOpen, opt.gapExtend, opt.bandWidth, opt.startScore);
      r == WithCigar(q, t, opt, mat, Alignment(e.score, 0, e.qle, 0, e.tle, []), k)
  {
    match opt.alignmentMode
    case 0 =>
      var h := k.align(q, t, mat, opt.gapOpen, opt.gapExtend, xtra);
      WithCigar(q, t, opt, mat, Alignment(h.score, h.qb, h.qe + 1, h.tb, h.te + 1, []), k)
    case 1 =>
      var g := k.glocal(q, t, mat, opt.gapOpen, opt.gapExtend, opt.bandWidth);
      Success(Alignment(g.score, 0, |q|, g.tlb, g.tle, if opt.addCigar then g.cigar else []))
    case 2 =>
      var e := k.extend(q, t, mat, opt.gapOpen, opt.gapExtend, opt.bandWidth, opt.startScore);
      WithCigar(q, t, opt, mat, Alignment(e.score, 0, e.qle, 0, e.tle, []), k)
    case 3 =>
      var g := k.global(q, t, mat, opt.gapOpen, opt.gapExtend, opt.bandWidth);
      Success(Alignment(g.score, 0, |q|, 0, |t|, if opt.addCigar then g.cigar else []))
    case _ =>
      Failure(UnknownMode(opt.alignmentMode))
  }

  /** The column names of the header line (src/main.c:317-322). */
  function HeaderFields(opt: MainOpt): (fields: seq<string>)
    ensures |fields| == 5 + (if opt.addCigar then 1 else 0) + (if opt.addSeq then 2 else 0)
    ensures forall i :: 0 <= i < |fields| ==> TabFree(fields[i])
  {
    ["score", "query_start", "query_end", "target_start", "target_end"]
      + (if opt.addCigar then ["cigar"] else [])
      + (if opt.addSeq then ["query", "target"] else [])
  }

  function HeaderLine(opt: MainOpt): string {
    Join(HeaderFields(opt)) + "\n"
  }

  lemma DecimalTabFree(n: int)
    ensures TabFree(Decimal(n))
  {
  }

  lemma DecodeTabFree(codes: seq<byte>)
    requires IsCodes(codes)
    ensures TabFree(Decode(codes))
  {
  }

  /** The columns of a record line (src/main.c:249-264): the score and the
      window, then the CIGAR if asked for, then both reads printed back from
      their codes if asked for. `None` when an entry of the CIGAR has an
      operation past the end of "MID". Each column names the same value as
      the header's column at that position. */
  function RecordFields(a: Alignment, opt: MainOpt, q: seq<byte>, t: seq<byte>): (r: Option<seq<string>>)
    requires IsCodes(q) && IsCodes(t)
    ensures r.Some? <==> !opt.addCigar || Cigar.Render(a.cigar).Some?
    ensures r.Some? ==> |r.value| == |HeaderFields(opt)|
    ensures r.Some? ==> forall i :: 0 <= i < |r.value| ==> TabFree(r.value[i])
    ensures r.Some? ==> r.value[..5] == [Decimal(a.score), Decimal(a.qlb), Decimal(a.qle), Decimal(a.tlb), Decimal(a.tle)]
    ensures r.Some? && opt.addCigar ==> r.value[5] == Cigar.Render(a.cigar).value
    ensures r.Some? && opt.addSeq ==>
      r.value[|r.value| - 2..] == [Decode(q), Decode(t)]
  {
    var cigar := if opt.addCigar then Cigar.Render(a.cigar) else Some("");
    if cigar.None? then None
    else
      DecimalTabFree(a.score); DecimalTabFree(a.qlb); DecimalTabFree(a.qle);
      DecimalTabFree(a.tlb); DecimalTabFree(a.tle);
      DecodeTabFree(q); DecodeTabFree(t);
      assert opt.addCigar ==> TabFree(cigar.value) by { if opt.addCigar { RenderTabFree(a.cigar); } }
      Some([Decimal(a.score), Decimal(a.qlb), Decimal(a.qle), Decimal(a.tlb), Decimal(a.tle)]
        + (if opt.addCigar then [cigar.value] else [])
        + (if opt.addSeq then [Decode(q), Decode(t)] else []))
  }

  /** What `align` writes for one record of encoded reads, or why it stops. */
  function Record(q: seq<byte>, t: seq<byte>, opt: MainOpt, mat: seq<int8>, xtra: bv32, k: Kernels)
    : (r: Result<string, AlignError>)
    requires IsCodes(q) && IsCodes(t)
    ensures r.Success? <==>
      AlignEncoded(q, t, opt, mat, xtra, k).Success? && RecordFields(AlignEncoded(q, t, opt, mat, xtra, k).value, opt, q, t).Some?
    ensures AlignEncoded(q, t, opt, mat, xtra, k).Failure? ==> r == Failure(AlignEncoded(q, t, opt, mat, xtra, k).error)
    ensures r.Success? ==>
      r.value == Join(RecordFields(AlignEncoded(q, t, opt, mat, xtra, k).value, opt, q, t).value) + "\n"
  {
    match AlignEncoded(q, t, opt, mat, xtra, k)
    case Failure(e) => Failure(e)
    case Success(a) =>
      match RecordFields(a, opt, q, t)
      case None => Failure(CigarOpOutOfRange)
      case Some(fields) => Success(Join(fields) + "\n")
  }

  /** A record line has as many columns as the header line, and cutting it
      at its tabs gives back the score, the window and the other fields. */
  lemma RecordMatchesHeader(q: seq<byte>, t: seq<byte>, opt: MainOpt, mat: seq<int8>, xtra: bv32, k: Kernels)
    requires IsCodes(q) && IsCodes(t)
    requires Record(q, t, opt, mat, xtra, k).Success?
    ensures var line := Record(q, t, opt, mat, xtra, k).value;
      && line[|line| - 1] == '\n'
      && |Split(line[..|line| - 1])| == |Split(Join(HeaderFields(opt)))|
      && Split(line[..|line| - 1]) == RecordFields(AlignEncoded(q, t, opt, mat, xtra, k).value, opt, q, t).value
  {
    var a := AlignEncoded(q, t, opt, mat, xtra, k).value;
    var fields := RecordFields(a, opt, q, t).value;
    var line := Join(fields) + "\n";
    assert line[..|line| - 1] == Join(fields);
    SplitJoin(fields);
    SplitJoin(HeaderFields(opt));
  }

  /** Overwrites each of the first `n` bytes with its code
      (`query[i] = seq_nt4_table[(int)query[i]]`, src/main.c:207-208). */
  method EncodeInPlace(buf: array<byte>, n: nat)
    requires n <= buf.Length
    modifies buf
    ensures buf[..] == Encode(old(buf[..n])) + old(buf[n..])
    ensures IsCodes(buf[..n])
  {
    var i := 0;
    while i < n
      invariant 0 <= i <= n
      invariant forall j :: 0 <= j < i ==> buf[j] == Nt4(old(buf[j]))
      invariant forall j :: i <= j < buf.Length ==> buf[j] == old(buf[j])
    {
      buf[i] := Nt4(buf[i]);
      i := i + 1;
    }
    assert buf[..] == Encode(old(buf[..n])) + old(buf[n..]);
  }

  /** `align` (src/main.c:191-267) on the two line buffers `fgets` filled:
      strips one newline from each, encodes them in place, aligns, and
      returns the line it writes to stdout. */
  method Align(query: array<byte>, ql0: nat, target: array<byte>, tl0: nat,
               opt: MainOpt, mat: seq<int8>, xtra: bv32, k: Kernels)
    returns (r: Result<string, AlignError>)
    requires query != target
    requires 0 < ql0 <= query.Length && 0 < tl0 <= target.Length
    modifies query, target
    ensures var q := StripLF(old(query[..ql0]));
      query[..] == Encode(q) + Stripped(old(query[..]), ql0)[|q|..]
    ensures var t := StripLF(old(target[..tl0]));
      target[..] == Encode(t) + Stripped(old(target[..]), tl0)[|t|..]
    ensures r == Record(Encode(StripLF(old(query[..ql0]))), Encode(StripLF(old(target[..tl0]))), opt, mat, xtra, k)
  {
    var ql := StripNewline(query, ql0);
    var tl := StripNewline(target, tl0);
    ghost var strippedQuery, strippedTarget := query[..], target[..];
    EncodeInPlace(query, ql);
    EncodeInPlace(target, tl);
    assert strippedQuery[..ql] == StripLF(old(query[..ql0]));
    assert strippedTarget[..tl] == StripLF(old(target[..tl0]));
    assert query[..ql] == Encode(StripLF(old(query[..ql0])));
    assert target[..tl] == Encode(StripLF(old(target[..tl0])));
    r := Record(query[..ql], target[..tl], opt, mat, xtra, k);
  }

  datatype SetupError =
    | InvalidOption(optError: OptError)
    | BadMatrixFile(fillError: FillError)

  /** What `main` has ready before the first record: the scoring matrix and
      the header line, if one was asked for. */
  datatype Setup = Setup(mat: seq<int8>, header: Option<string>)

  /** `main` from validation to the header (src/main.c:302-322): validate the
      options, build the matrix from the match and mismatch scores, overwrite
      it from the matrix file if one was named (`fileLines` are that file's
      values, line by line; the corrected `fill_matrix`), and write the header
      line if asked. */
  method Prepare(opt: MainOpt, fileLines: seq<seq<int>>) returns (r: Result<Setup, SetupError>)
    ensures Validate(opt).Fail? ==> r == Failure(InvalidOption(Validate(opt).error))
    ensures r.Success? <==>
      Validate(opt) == Pass && (opt.matrixFile.Some? ==> Load(Matrix(opt.matchScore, opt.mismatchScore), fileLines).1 == Pass)
    ensures r.Success? && opt.matrixFile.None? ==> IsBuilt(r.value.mat, opt.matchScore, opt.mismatchScore)
    ensures (Validate(opt) == Pass && opt.matrixFile.Some?
             && Load(Matrix(opt.matchScore, opt.mismatchScore), fileLines).1.Fail?) ==>
      r == Failure(BadMatrixFile(Load(Matrix(opt.matchScore, opt.mismatchScore), fileLines).1.error))
    ensures r.Success? && opt.matrixFile.Some? ==>
      r.value.mat == Load(Matrix(opt.matchScore, opt.mismatchScore), fileLines).0
    ensures r.Success? ==> r.value.header == if opt.addHeader then Some(HeaderLine(opt)) else None
  {
    var valid := Validate(opt);
    if valid.Fail? {
      return Failure(InvalidOption(valid.error));
    }
    var mat := Build(opt.matchScore, opt.mismatchScore);
    BuiltIsMatrix(mat, opt.matchScore, opt.mismatchScore);
    if opt.matrixFile.Some? {
      var a := new int8[Size](n requires 0 <= n < Size => mat[n]);
      assert a[..] == mat;
      var filled := FillMatrix(a, fileLines);
      if filled.Fail? {
        return Failure(BadMatrixFile(filled.error));
      }
      mat := a[..];
    }
    var header := if opt.addHeader then Some(HeaderLine(opt)) else None;
    r := Success(Setup(mat, header));
  }

  /** `main` from validation to the header with `fill_matrix` as written
      (`ScoringMatrix.FillMatrixAsWritten`): once the options are valid, any
      matrix file ends the run, with "Too many values" when it holds a token
      and the count error for 0 values when it holds none. */
  method PrepareAsWritten(opt: MainOpt, fileLines: seq<seq<int>>) returns (r: Result<Setup, SetupError>)
    ensures Validate(opt).Fail? ==> r == Failure(InvalidOption(Validate(opt).error))
    ensures r.Success? <==> Validate(opt) == Pass && opt.matrixFile.None?
    ensures Validate(opt) == Pass && opt.matrixFile.Some? ==>
      r == Failure(BadMatrixFile(if FirstToken(fileLines).Some? then TooManyValues else WrongCount(0)))
    ensures r.Success? ==> IsBuilt(r.value.mat, opt.matchScore, opt.mismatchScore)
    ensures r.Success? ==> r.value.header == if opt.addHeader then Some(HeaderLine(opt)) else None
  {
    var valid := Validate(opt);
    if valid.Fail? {
      return Failure(InvalidOption(valid.error));
    }
    var mat := Build(opt.matchScore, opt.mismatchScore);
    if opt.matrixFile.Some? {
      var a := new int8[Size](n requires 0 <= n < Size => mat[n]);
      var filled := FillMatrixAsWritten(a, fileLines);
      return Failure(BadMatrixFile(filled.error));
    }
    var header := if opt.addHeader then Some(HeaderLine(opt)) else None;
    r := Success(Setup(mat, header));
  }
}
