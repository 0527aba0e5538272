/** Packed CIGAR entries, as in section 4.2 of the SAM/BAM Format
    Specification (SAMv1): a 32-bit value holding the run length in its upper
    28 bits and the operation in its lower 4 bits. The program prints each
    entry as the length in decimal followed by `"MID"[op]`. */
module Cigar {
  import opened Wrappers
  import opened DecimalText

  /** The largest run length a packed entry can hold. */
  const MaxLen: nat := 0x1000_0000

  datatype CigarEntry = CigarEntry(len: nat, op: nat)

  /** A `uint32_t` CIGAR entry. */
  type uint32 = c: int | 0 <= c < 0x1_0000_0000

  /** `len = c >> 4`, `op = c & 0xf`: on an unsigned value the shift is a
      division by 16 and the mask the remainder (`PackedBits` shows the same
      round trip on the bits themselves). */
  function Unpack(c: uint32): (e: CigarEntry)
    ensures e.len < MaxLen && e.op < 16
    ensures e.len * 16 + e.op == c
  {
    CigarEntry(c / 16, c % 16)
  }

  /** `len << 4 | op`. */
  function Pack(len: nat, op: nat): (c: uint32)
    requires len < MaxLen && op < 16
  {
    len * 16 + op
  }

  /** Unpacking a packed entry recovers its length and operation. */
  lemma UnpackPack(len: nat, op: nat)
    requires len < MaxLen && op < 16
    ensures Unpack(Pack(len, op)) == CigarEntry(len, op)
  {
  }

  /** Every entry is the packing of what it unpacks to. */
  lemma PackUnpack(c: uint32)
    ensures Pack(Unpack(c).len, Unpack(c).op) == c
  {
  }

  /** The same round trip on 32-bit words: shifting out the operation and
      masking it off give back the length and the operation. */
  lemma PackedBits(len: bv32, op: bv32)
    requires len < 0x1000_0000 && op < 16
    ensures ((len << 4) | op) >> 4 == len
    ensures ((len << 4) | op) & 0xf == op
  {
  }

  /** `"MID"[op]`: the literal is four bytes long with its terminating NUL,
      so op 3 prints a NUL byte and any larger op reads past the literal,
      which C leaves undefined (`None`). */
  function OpChar(op: nat): (c: Option<char>)
    ensures op < 4 <==> c.Some?
  {
    if op < 4 then Some("MID\0"[op]) else None
  }

  /** The letter of an operation, read back. */
  function OpOfChar(c: char): Option<nat> {
    if c == 'M' then Some(0) else if c == 'I' then Some(1) else if c == 'D' then Some(2) else None
  }

  /** One entry as `fprintf(stdout, "%d%c", len, "MID"[op])` prints it. */
  function RenderEntry(c: uint32): (r: Option<string>)
    ensures r.Some? <==> Unpack(c).op < 4
    ensures r.Some? ==> r.value == Decimal(Unpack(c).len) + ["MID\0"[Unpack(c).op]]
  {
    var e := Unpack(c);
    match OpChar(e.op)
    case None => None
    case Some(ch) => Some(Decimal(e.len) + [ch])
  }

  /** The whole CIGAR, entry after entry without separators; `None` when an
      entry's operation is out of the literal's range. */
  function Render(cigar: seq<uint32>): (r: Option<string>)
    ensures r.Some? <==> forall i :: 0 <= i < |cigar| ==> Unpack(cigar[i]).op < 4
  {
    if cigar == [] then Some("")
    else match (RenderEntry(cigar[0]), Render(cigar[1..]))
      case (Some(head), Some(tail)) => Some(head + tail)
      case _ => None
  }

  /** The length of the run of digits that starts `s`. */
  function DigitRun(s: string): (n: nat)
    ensures n <= |s|
    ensures AllDigits(s[..n])
    ensures n < |s| ==> !IsDigit(s[n])
  {
    if s == [] || !IsDigit(s[0]) then 0 else 1 + DigitRun(s[1..])
  }

  /** Reads a printed CIGAR back into (length, operation) pairs. */
  function Parse(s: string): Option<seq<CigarEntry>>
    decreases |s|
  {
    if s == [] then Some([])
    else
      var n := DigitRun(s);
      if n == 0 || n == |s| then None
      else match (OpOfChar(s[n]), Parse(s[n + 1..]))
        case (Some(op), Some(rest)) => Some([CigarEntry(DigitsValue(s[..n]), op)] + rest)
        case _ => None
  }

  /** An M, I or D operation: the ones a CIGAR is made of. */
  predicate IsMid(cigar: seq<uint32>) {
    forall i :: 0 <= i < |cigar| ==> Unpack(cigar[i]).op < 3
  }

  function UnpackAll(cigar: seq<uint32>): (entries: seq<CigarEntry>)
    ensures |entries| == |cigar|
    ensures forall i :: 0 <= i < |cigar| ==> entries[i] == Unpack(cigar[i])
  {
    seq(|cigar|, i requires 0 <= i < |cigar| => Unpack(cigar[i]))
  }

  lemma {:induction false} DigitRunOf(d: string, rest: string)
    requires AllDigits(d)
    requires rest == [] || !IsDigit(rest[0])
    ensures DigitRun(d + rest) == |d|
    decreases |d|
  {
    if d != [] {
      assert (d + rest)[1..] == d[1..] + rest;
      DigitRunOf(d[1..], rest);
    } else {
      assert d + rest == rest;
    }
  }

  /** Reading one printed entry in front of the rest of a CIGAR. */
  lemma ParseEntry(e: CigarEntry, tail: string, rest: seq<CigarEntry>)
    requires e.op < 3
    requires Parse(tail) == Some(rest)
    ensures Parse(Decimal(e.len) + ["MID\0"[e.op]] + tail) == Some([e] + rest)
  {
    var digits := Decimal(e.len);
    var ch := "MID\0"[e.op];
    var s := digits + [ch] + tail;
    DigitRunOf(digits, [ch] + tail);
    assert s == digits + ([ch] + tail);
    assert s[..|digits|] == digits && s[|digits|] == ch && s[|digits| + 1..] == tail;
    DigitsValueOfDigits(e.len);
    assert OpOfChar(ch) == Some(e.op);
  }

  /** Printing a CIGAR of M, I and D entries and reading it back gives the
      unpacked entries. */
  lemma {:induction false} RenderParse(cigar: seq<uint32>)
    requires IsMid(cigar)
    ensures Render(cigar).Some?
    ensures Parse(Render(cigar).value) == Some(UnpackAll(cigar))
    decreases |cigar|
  {
    if cigar != [] {
      assert IsMid(cigar[1..]) by {
        forall i | 0 <= i < |cigar| - 1 ensures Unpack(cigar[1..][i]).op < 3 {
          assert cigar[1..][i] == cigar[i + 1];
        }
      }
      RenderParse(cigar[1..]);
      var e := Unpack(cigar[0]);
      var head := Decimal(e.len) + ["MID\0"[e.op]];
      assert RenderEntry(cigar[0]) == Some(head);
      assert Render(cigar).value == head + Render(cigar[1..]).value;
      ParseEntry(e, Render(cigar[1..]).value, UnpackAll(cigar[1..]));
      assert UnpackAll(cigar) == [e] + UnpackAll(cigar[1..]);
    }
  }

  /** The printed CIGAR contains no tab, so it is one output column. */
  lemma {:induction false} RenderTabFree(cigar: seq<uint32>)
    requires Render(cigar).Some?
    ensures forall i :: 0 <= i < |Render(cigar).value| ==> Render(cigar).value[i] != '\t'
    decreases |cigar|
  {
    if cigar != [] {
      RenderTabFree(cigar[1..]);
      var e := Unpack(cigar[0]);
      var head := Decimal(e.len) + ["MID\0"[e.op]];
      assert forall i :: 0 <= i < |head| ==> head[i] != '\t';
    }
  }
}
