/** The older dispatcher, the repository's root main.c: one `main` that
    parses its own options into locals, builds the matrix, and handles each
    query/target pair in the body of its read loop, encoding into separate
    arrays and printing the raw reads. The lemmas at the end compare it
    with the dispatcher of src/main.c. */
module Legacy {
  import opened Wrappers
  import opened MachineInts
  import opened DecimalText
  import opened Tsv
  import BaseEncoding
  import opened ScoringMatrix
  import Options
  import opened Ksw
  import opened Buffers
  import Dispatch

  /** main.c's own copy of `seq_nt4_table` (main.c:10-27). */
  const SeqNt4Rows: seq<seq<nat>> := [
    [4, 4, 4, 4, 4, 4, 4, 4, 4, 4, 4, 4, 4, 4, 4, 4],
    [4, 4, 4, 4, 4, 4, 4, 4, 4, 4, 4, 4, 4, 4, 4, 4],
    [4, 4, 4, 4, 4, 4, 4, 4, 4, 4, 4, 4, 4, 4, 4, 4],
    [4, 4, 4, 4, 4, 4, 4, 4, 4, 4, 4, 4, 4, 4, 4, 4],
    [4, 0, 4, 1, 4, 4, 4, 2, 4, 4, 4, 4, 4, 4, 4, 4],
    [4, 4, 4, 4, 3, 4, 4, 4, 4, 4, 4, 4, 4, 4, 4, 4],
    [4, 0, 4, 1, 4, 4, 4, 2, 4, 4, 4, 4, 4, 4, 4, 4],
    [4, 4, 4, 4, 3, 4, 4, 4, 4, 4, 4, 4, 4, 4, 4, 4],
    [4, 4, 4, 4, 4, 4, 4, 4, 4, 4, 4, 4, 4, 4, 4, 4],
    [4, 4, 4, 4, 4, 4, 4, 4, 4, 4, 4, 4, 4, 4, 4, 4],
    [4, 4, 4, 4, 4, 4, 4, 4, 4, 4, 4, 4, 4, 4, 4, 4],
    [4, 4, 4, 4, 4, 4, 4, 4, 4, 4, 4, 4, 4, 4, 4, 4],
    [4, 4, 4, 4, 4, 4, 4, 4, 4, 4, 4, 4, 4, 4, 4, 4],
    [4, 4, 4, 4, 4, 4, 4, 4, 4, 4, 4, 4, 4, 4, 4, 4],
    [4, 4, 4, 4, 4, 4, 4, 4, 4, 4, 4, 4, 4, 4, 4, 4],
    [4, 4, 4, 4, 4, 4, 4, 4, 4, 4, 4, 4, 4, 4, 4, 4]
  ]

  function LegacyNt4(b: byte): nat {
    SeqNt4Rows[b / 16][b % 16]
  }

  /** The two copies of the table agree entry for entry. */
  lemma SameTable(b: byte)
    ensures LegacyNt4(b) == BaseEncoding.Nt4(b)
    ensures SeqNt4Rows == BaseEncoding.SeqNt4Rows
  {
    BaseEncoding.TableIsBaseCode();
  }

  /** The locals `main` parses its options into. */
  datatype Args = Args(
    sa: int32, sb: int32, gapo: int32, gape: int32, minsc: int32, w: int32, h0: int32,
    matFile: Option<string>, mode: int32, withSeq: bool)

  /** Their initial values (main.c:58-72). */
  function Defaults(): Args {
    Args(sa := 1, sb := 3, gapo := 5, gape := 2, minsc := 0, w := 10, h0 := 0,
      matFile := None, mode := 0, withSeq := false)
  }

  /** The band width every kernel call gets; the parsed `-w` is never used. */
  const KernelBandWidth: int := 1000

  /** `if (minsc > 0xffff) minsc = 0xffff;` */
  function ClampMinScore(minsc: int): (m: int)
    ensures m <= 0xffff
    ensures m == minsc <==> minsc <= 0xffff
  {
    if minsc > 0xffff then 0xffff else minsc
  }

  /** An `int` as the 32 bits `|=` combines (two's complement). A value
      that fits in 16 bits is widened from `bv16`, which keeps its upper
      half visibly zero. */
  function Bits(x: int32): bv32 {
    if 0 <= x <= 0xffff then (x as bv16) as bv32
    else if 0 <= x then x as bv32
    else (x + 0x1_0000_0000) as bv32
  }

  /** `xtra |= minsc` after the clamp, with `flags` the initial
      `KSW_XSTART | KSW_XSUBO` of ksw.h. */
  function Xtra(flags: bv32, minsc: int32): bv32 {
    flags | Bits(ClampMinScore(minsc))
  }

  /** For a minimum score of 0 or more, the clamp keeps it within the low 16
      bits: they hold it, and the flag bits above are untouched. */
  lemma XtraKeepsFlags(flags: bv32, minsc: int32)
    requires flags & 0xffff == 0
    requires 0 <= minsc
    ensures Xtra(flags, minsc) & 0xffff == (ClampMinScore(minsc) as bv16) as bv32
    ensures Xtra(flags, minsc) & !0xffff == flags
  {
    var m := ClampMinScore(minsc);
    PackLow(flags, m as bv16);
  }

  lemma PackLow(flags: bv32, low: bv16)
    requires flags & 0xffff == 0
    ensures (flags | low as bv32) & 0xffff == low as bv32
    ensures (flags | low as bv32) & !0xffff == flags
  {
  }

  /** The clamp bounds the minimum score only from above: `-t -1` sets
      every bit of `xtra`, flags above the low 16 bits included. */
  lemma NegativeMinScoreSetsAllBits(flags: bv32)
    ensures Xtra(flags, -1) == 0xffff_ffff
  {
  }

  /** Score and window of one record, as the locals stand when it is printed. */
  datatype Hit = Hit(s: int, qlb: int, qle: int, tlb: int, tle: int)

  /** The mode switch of main.c:118-154 on the encoded reads. A mode outside
      0..3 matches no case and leaves every local at 0. */
  function LegacyHit(args: Args, q: seq<byte>, t: seq<byte>, mat: seq<int8>, xtra: bv32, k: Kernels): Hit {
    match args.mode
    case 0 =>
      var r := k.align(q, t, mat, args.gapo, args.gape, xtra);
      Hit(r.score, r.qb, r.qe + 1, r.tb, r.te + 1)
    case 1 =>
      var g := k.glocal(q, t, mat, args.gapo, args.gape, KernelBandWidth);
      Hit(g.score, 0, |q|, g.tlb, g.tle)
    case 2 =>
      var e := k.extend(q, t, mat, args.gapo, args.gape, KernelBandWidth, args.h0);
      Hit(e.score, 0, e.qle, 0, 0)
    case 3 =>
      var g := k.global(q, t, mat, args.gapo, args.gape, KernelBandWidth);
      Hit(g.score, 0, |q|, 0, |t|)
    case _ =>
      Hit(0, 0, 0, 0, 0)
  }

  /** The read as `%s` prints it. */
  function Text(s: seq<byte>): (text: string)
    ensures |text| == |s|
    ensures forall i :: 0 <= i < |s| ==> text[i] as int == s[i]
  {
    seq(|s|, i requires 0 <= i < |s| => s[i] as char)
  }

  /** The printed columns (main.c:157-162): five, or seven with the raw reads
      after the score and after the query window. */
  function LegacyFields(withSeq: bool, q: seq<byte>, t: seq<byte>, h: Hit): (fields: seq<string>)
    ensures |fields| == if withSeq then 7 else 5
  {
    if withSeq then [Decimal(h.s), Text(q), Decimal(h.qlb), Decimal(h.qle), Text(t), Decimal(h.tlb), Decimal(h.tle)]
    else [Decimal(h.s), Decimal(h.qlb), Decimal(h.qle), Decimal(h.tlb), Decimal(h.tle)]
  }

  /** The encoding loop of main.c:115-116 (and its twin for the target):
      the first `n` bytes of `text`, through main.c's table, into `nt4`. */
  method EncodeInto(text: array<byte>, n: nat, nt4: array<byte>)
    requires text != nt4
    requires n <= text.Length && n <= nt4.Length
    modifies nt4
    ensures nt4[..] == BaseEncoding.Encode(text[..n]) + old(nt4[n..])
  {
    var i := 0;
    while i < n
      invariant 0 <= i <= n
      invariant forall j :: 0 <= j < i ==> nt4[j] == BaseEncoding.Nt4(text[j])
      invariant forall j :: i <= j < nt4.Length ==> nt4[j] == old(nt4[j])
    {
      SameTable(text[i]);
      nt4[i] := LegacyNt4(text[i]);
      i := i + 1;
    }
    assert nt4[..] == BaseEncoding.Encode(text[..n]) + old(nt4[n..]);
  }

  /** One pass of the read loop's body (main.c:109-163): strip the newlines,
      encode into `query_nt4`/`target_nt4`, run the mode's kernel and return
      the line printed. The text buffers keep their bytes but the newline. */
  method ProcessRecord(query: array<byte>, ql0: nat, target: array<byte>, tl0: nat,
                       queryNt4: array<byte>, targetNt4: array<byte>,
                       args: Args, mat: seq<int8>, xtra: bv32, k: Kernels)
    returns (line: string)
    requires query != target && query != queryNt4 && query != targetNt4
    requires target != queryNt4 && target != targetNt4 && queryNt4 != targetNt4
    requires 0 < ql0 <= query.Length && 0 < tl0 <= target.Length
    requires ql0 <= queryNt4.Length && tl0 <= targetNt4.Length
    requires forall j :: 0 <= j < ql0 ==> query[j] != 0
    requires forall j :: 0 <= j < tl0 ==> target[j] != 0
    modifies query, target, queryNt4, targetNt4
    ensures query[..] == Stripped(old(query[..]), ql0)
    ensures target[..] == Stripped(old(target[..]), tl0)
    ensures var q := StripLF(old(query[..ql0]));
      queryNt4[..] == BaseEncoding.Encode(q) + old(queryNt4[|q|..])
    ensures var t := StripLF(old(target[..tl0]));
      targetNt4[..] == BaseEncoding.Encode(t) + old(targetNt4[|t|..])
    ensures var q, t := StripLF(old(query[..ql0])), StripLF(old(target[..tl0]));
      line == Join(LegacyFields(args.withSeq, q, t,
        LegacyHit(args, BaseEncoding.Encode(q), BaseEncoding.Encode(t), mat, xtra, k))) + "\n"
  {
    var ql := StripNewline(query, ql0);
    var tl := StripNewline(target, tl0);

    EncodeInto(query, ql, queryNt4);
    EncodeInto(target, tl, targetNt4);
    var q, t := query[..ql], target[..tl];
    var qNt4, tNt4 := queryNt4[..ql], targetNt4[..tl];

    var qlb, qle, tlb, tle := 0, 0, 0, 0;
    var s := 0;
    if args.mode == 0 {
      var r := k.align(qNt4, tNt4, mat, args.gapo, args.gape, xtra);
      s := r.score;
      qlb, qle, tlb, tle := r.qb, r.qe + 1, r.tb, r.te + 1;
    } else if args.mode == 1 {
      var g := k.glocal(qNt4, tNt4, mat, args.gapo, args.gape, KernelBandWidth);
      s, tlb, tle := g.score, g.tlb, g.tle;
      qlb, qle := 0, ql;
    } else if args.mode == 2 {
      var e := k.extend(qNt4, tNt4, mat, args.gapo, args.gape, KernelBandWidth, args.h0);
      s, qle, tle := e.score, e.qle, e.tle;
      qlb, tle := 0, 0;
    } else if args.mode == 3 {
      var g := k.global(qNt4, tNt4, mat, args.gapo, args.gape, KernelBandWidth);
      s := g.score;
      qlb, tle := 0, 0;
      qle, tle := ql, tl;
    }
    assert Hit(s, qlb, qle, tlb, tle) == LegacyHit(args, qNt4, tNt4, mat, xtra, k);
    line := Join(LegacyFields(args.withSeq, q, t, Hit(s, qlb, qle, tlb, tle))) + "\n";
  }

  /** `main` up to the read loop (main.c:95-105): clamp the minimum score into
      `xtra`, build the matrix from `sa` and `sb`, and overwrite it from the
      matrix file if one was named (the corrected `fill_matrix`). Nothing is
      validated. */
  method Prepare(args: Args, fileLines: seq<seq<int>>, flags: bv32) returns (r: Result<(seq<int8>, bv32), FillError>)
    ensures r.Success? <==> args.matFile.None? || Load(Matrix(args.sa, args.sb), fileLines).1 == Pass
    ensures r.Success? ==> r.value.1 == Xtra(flags, args.minsc)
    ensures r.Success? && args.matFile.None? ==> IsBuilt(r.value.0, args.sa, args.sb)
    ensures r.Success? && args.matFile.Some? ==> r.value.0 == Load(Matrix(args.sa, args.sb), fileLines).0
    ensures args.matFile.Some? && Load(Matrix(args.sa, args.sb), fileLines).1.Fail? ==>
      r == Failure(Load(Matrix(args.sa, args.sb), fileLines).1.error)
  {
    var minsc := args.minsc;
    if minsc > 0xffff {
      minsc := 0xffff;
    }
    var xtra := flags | Bits(minsc);
    assert minsc == ClampMinScore(args.minsc);
    var mat := Build(args.sa, args.sb);
    BuiltIsMatrix(mat, args.sa, args.sb);
    if args.matFile.Some? {
      var a := new int8[Size](n requires 0 <= n < Size => mat[n]);
      assert a[..] == mat;
      var filled := FillMatrix(a, fileLines);
      if filled.Fail? {
        return Failure(filled.error);
      }
      mat := a[..];
    }
    r := Success((mat, xtra));
  }

  /** The same with `fill_matrix` as written: naming a matrix file always
      ends the run. */
  method PrepareAsWritten(args: Args, fileLines: seq<seq<int>>, flags: bv32) returns (r: Result<(seq<int8>, bv32), FillError>)
    ensures r.Success? <==> args.matFile.None?
    ensures args.matFile.Some? ==>
      r == Failure(if FirstToken(fileLines).Some? then TooManyValues else WrongCount(0))
    ensures r.Success? ==> r.value.1 == Xtra(flags, args.minsc) && IsBuilt(r.value.0, args.sa, args.sb)
  {
    var minsc := args.minsc;
    if minsc > 0xffff {
      minsc := 0xffff;
    }
    var xtra := flags | Bits(minsc);
    var mat := Build(args.sa, args.sb);
    if args.matFile.Some? {
      var a := new int8[Size](n requires 0 <= n < Size => mat[n]);
      var filled := FillMatrixAsWritten(a, fileLines);
      return Failure(filled.error);
    }
    r := Success((mat, xtra));
  }

  // ---------------------------------------------------------------------
  // How the two dispatchers relate.

  /** The default scores of the two programs build the same matrix. */
  lemma SameDefaultMatrix()
    ensures Matrix(Defaults().sa, Defaults().sb) == Matrix(Options.Init().matchScore, Options.Init().mismatchScore)
    ensures IsBuilt(Matrix(Defaults().sa, Defaults().sb), 1, 3)
  {
  }

  /** Options of src/main.c that ask the kernels the same questions as
      `args` do here. */
  predicate SameKernelArgs(opt: Options.MainOpt, args: Args) {
    && opt.alignmentMode == args.mode
    && opt.gapOpen == args.gapo && opt.gapExtend == args.gape
    && opt.bandWidth == KernelBandWidth && opt.startScore == args.h0
    && !opt.addCigar
  }

  /** On the same reads, kernels and arguments the two dispatchers report the
      same score and window in the local, glocal and global modes. src/main.c
      hands `ksw_align` the flags alone, the older program the flags with the
      minimum score or-ed in, so in local mode they agree for `-t 0`. */
  lemma AgreeOutsideExtend(opt: Options.MainOpt, args: Args, q: seq<byte>, t: seq<byte>, mat: seq<int8>, flags: bv32, k: Kernels)
    requires SameKernelArgs(opt, args)
    requires args.mode == 0 || args.mode == 1 || args.mode == 3
    requires args.mode == 0 ==> args.minsc == 0
    ensures var a := Dispatch.AlignEncoded(q, t, opt, mat, flags, k);
      && a.Success?
      && LegacyHit(args, q, t, mat, Xtra(flags, args.minsc), k) == Hit(a.value.score, a.value.qlb, a.value.qle, a.value.tlb, a.value.tle)
  {
    if args.mode == 0 {
      assert Xtra(flags, args.minsc) == flags;
    }
  }

  /** In extend mode the old dispatcher zeroes the target end the kernel
      reported (main.c:145), so the two disagree exactly when that end is
      not 0. */
  lemma ExtendTargetEndDiffers(opt: Options.MainOpt, args: Args, q: seq<byte>, t: seq<byte>, mat: seq<int8>, xtra: bv32, k: Kernels)
    requires SameKernelArgs(opt, args) && args.mode == 2
    ensures var a := Dispatch.AlignEncoded(q, t, opt, mat, xtra, k);
      var h := LegacyHit(args, q, t, mat, xtra, k);
      && a.Success? && h.qlb == 0 && h.tlb == 0 && h.tle == 0
      && a.value.qle == h.qle
      && (a.value.tle == h.tle <==> k.extend(q, t, mat, args.gapo, args.gape, KernelBandWidth, args.h0).tle == 0)
  {
  }

  /** A mode outside 0..3 ends the run in src/main.c, while the old
      dispatcher prints a record of zeros. */
  lemma UnknownModeDiffers(opt: Options.MainOpt, args: Args, q: seq<byte>, t: seq<byte>, mat: seq<int8>, xtra: bv32, k: Kernels)
    requires SameKernelArgs(opt, args)
    requires !(0 <= args.mode <= 3)
    ensures Dispatch.AlignEncoded(q, t, opt, mat, xtra, k) == Failure(Dispatch.UnknownMode(args.mode))
    ensures LegacyHit(args, q, t, mat, xtra, k) == Hit(0, 0, 0, 0, 0)
  {
  }

  /** The old record prints the reads raw: with tab-free reads cutting the
      line at its tabs gives back its seven columns, but a tab inside a read
      adds a column. */
  lemma RawReadColumns(q: seq<byte>, t: seq<byte>, h: Hit)
    requires forall i :: 0 <= i < |q| ==> q[i] != 9
    requires forall i :: 0 <= i < |t| ==> t[i] != 9
    ensures Split(Join(LegacyFields(true, q, t, h))) == LegacyFields(true, q, t, h)
  {
    var fields := LegacyFields(true, q, t, h);
    forall i | 0 <= i < 7 ensures TabFree(fields[i]) {
      Dispatch.DecimalTabFree(h.s);
      Dispatch.DecimalTabFree(h.qlb);
      Dispatch.DecimalTabFree(h.qle);
      Dispatch.DecimalTabFree(h.tlb);
      Dispatch.DecimalTabFree(h.tle);
    }
    SplitJoin(fields);
  }

  lemma TabInReadAddsColumn(h: Hit)
    ensures |LegacyFields(true, [65, 9, 67], [71], h)| == 7
    ensures |Split(Join(LegacyFields(true, [65, 9, 67], [71], h)))| == 8
  {
    var fields := LegacyFields(true, [65, 9, 67], [71], h);
    var rest := fields[2..];
    assert fields[1] == "A" + "\t" + "C";
    var columns := [fields[0], "A", "C"] + rest;
    assert columns[1..][1..][1..] == rest && columns[3..] == rest;
    assert fields[1..][1..] == rest;
    assert Join(fields[1..]) == "A" + "\t" + "C" + "\t" + Join(rest);
    assert Join(columns[2..]) == "C" + "\t" + Join(rest);
    assert Join(columns) == Join(fields);
    forall i | 0 <= i < 8 ensures TabFree(columns[i]) {
      Dispatch.DecimalTabFree(h.s);
      Dispatch.DecimalTabFree(h.qlb);
      Dispatch.DecimalTabFree(h.qle);
      Dispatch.DecimalTabFree(h.tlb);
      Dispatch.DecimalTabFree(h.tle);
    }
    SplitJoin(columns);
  }
}
