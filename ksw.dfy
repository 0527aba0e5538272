/** The alignment kernels of ksw.h (`ksw_align`, `ksw_global`, `ksw_glocal`,
    `ksw_extend`). ksw.h and ksw.c are not part of this model: the kernels are
    given to the dispatcher as functions it knows nothing about, and nothing is
    assumed of their results. Every kernel gets the alphabet size 5, which is
    constant and therefore left out of the signatures. */
module Ksw {
  import opened MachineInts
  import opened Cigar

  /** `kswr_t` as `ksw_align` fills it: the score and the inclusive begin and
      end of the hit on query and target (`score2` and `te2` are unused). */
  datatype LocalHit = LocalHit(score: int, qb: int, qe: int, tb: int, te: int)

  /** `ksw_global`'s score and the CIGAR it writes through `n_cigar`/`cigar`. */
  datatype GlobalHit = GlobalHit(score: int, cigar: seq<uint32>)

  /** `ksw_glocal`'s score, the target begin and end it writes through `tlb`
      and `tle`, and its CIGAR. */
  datatype GlocalHit = GlocalHit(score: int, tlb: int, tle: int, cigar: seq<uint32>)

  /** `ksw_extend`'s score and the query and target ends it writes through
      `qle` and `tle`. */
  datatype ExtendHit = ExtendHit(score: int, qle: int, tle: int)

  /** The four kernels. Arguments in the source's order: query codes, target
      codes, scoring matrix, gap open, gap extend, then `xtra` for
      `ksw_align`, the band width for the others, and the start score `h0`
      last for `ksw_extend`. */
  datatype Kernels = Kernels(
    align: (seq<byte>, seq<byte>, seq<int8>, int, int, bv32) -> LocalHit,
    global: (seq<byte>, seq<byte>, seq<int8>, int, int, int) -> GlobalHit,
    glocal: (seq<byte>, seq<byte>, seq<int8>, int, int, int) -> GlocalHit,
    extend: (seq<byte>, seq<byte>, seq<int8>, int, int, int, int) -> ExtendHit)
}
