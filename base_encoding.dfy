/** The base encoding: `seq_nt4_table` turns a byte of a read into one of
    the codes 0..4 (A, C, G, T, anything else), and printing turns a code
    back into a letter of "ACGTN". */
module BaseEncoding {
  import opened Wrappers
  import opened MachineInts

  /** '\n', which `fgets` leaves at the end of a line. */
  const LF: byte := 10

  /** `seq_nt4_table[256]`, as the sixteen rows of sixteen entries the source
      lays out: entry `b` of the flat table is row `b / 16`, column `b % 16`. */
  const SeqNt4Rows: seq<seq<nat>> := [
    [4, 4, 4, 4, 4, 4, 4, 4, 4, 4, 4, 4, 4, 4, 4, 4],
    [4, 4, 4, 4, 4, 4, 4, 4, 4, 4, 4, 4, 4, 4, 4, 4],
    [4, 4, 4, 4, 4, 4, 4, 4, 4, 4, 4, 4, 4, 4, 4, 4],
    [4, 4, 4, 4, 4, 4, 4, 4, 4, 4, 4, 4, 4, 4, 4, 4],
    [4, 0, 4, 1, 4, 4, 4, 2, 4, 4, 4, 4, 4, 4, 4, 4],
    [4, 4, 4, 4, 3, 4, 4, 4, 4, 4, 4, 4, 4, 4, 4, 4],
    [4, 0, 4, 1, 4, 4, 4, 2, 4, 4, 4, 4, 4, 4, 4, 4],
    [4, 4, 4, 4, 3, 4, 4, 4, 4, 4, 4, 4, 4, 4, 4, 4],
    [4, 4, 4, 4, 4, 4, 4, 4, 4, 4, 4, 4, 4, 4, 4, 4],
    [4, 4, 4, 4, 4, 4, 4, 4, 4, 4, 4, 4, 4, 4, 4, 4],
    [4, 4, 4, 4, 4, 4, 4, 4, 4, 4, 4, 4, 4, 4, 4, 4],
    [4, 4, 4, 4, 4, 4, 4, 4, 4, 4, 4, 4, 4, 4, 4, 4],
    [4, 4, 4, 4, 4, 4, 4, 4, 4, 4, 4, 4, 4, 4, 4, 4],
    [4, 4, 4, 4, 4, 4, 4, 4, 4, 4, 4, 4, 4, 4, 4, 4],
    [4, 4, 4, 4, 4, 4, 4, 4, 4, 4, 4, 4, 4, 4, 4, 4],
    [4, 4, 4, 4, 4, 4, 4, 4, 4, 4, 4, 4, 4, 4, 4, 4]
  ]

  /** `seq_nt4_table[b]`. */
  function TableEntry(b: byte): nat {
    SeqNt4Rows[b / 16][b % 16]
  }

  /** The table's intent written independently of it: the four bases in
      either case map to 0..3, every other byte to 4. */
  function BaseCode(b: byte): (code: nat)
    ensures code <= 4
  {
    if b == 'A' as int || b == 'a' as int then 0
    else if b == 'C' as int || b == 'c' as int then 1
    else if b == 'G' as int || b == 'g' as int then 2
    else if b == 'T' as int || b == 't' as int then 3
    else 4
  }

  lemma TableIsBaseCode()
    ensures forall b: byte :: TableEntry(b) == BaseCode(b)
  {
  }

  /** The code of one byte, looked up as the source does (after the
      correction described with `CharIndex`: the byte is read unsigned). */
  function Nt4(b: byte): (code: nat)
    ensures code <= 4
    ensures code == BaseCode(b)
  {
    TableIsBaseCode();
    TableEntry(b)
  }

  /** `"ACGTN"[code]`, which prints a code back as a letter. */
  function DecodeBase(code: nat): (c: char)
    requires code <= 4
  {
    "ACGTN"[code]
  }

  /** What printing an encoded byte should show: the upper-case base for
      ACGT in either case, 'N' for everything else. */
  function Normalized(b: byte): char {
    if b == 'A' as int || b == 'a' as int then 'A'
    else if b == 'C' as int || b == 'c' as int then 'C'
    else if b == 'G' as int || b == 'g' as int then 'G'
    else if b == 'T' as int || b == 't' as int then 'T'
    else 'N'
  }

  lemma DecodeNt4(b: byte)
    ensures DecodeBase(Nt4(b)) == Normalized(b)
  {
  }

  /** Encoding the printed letter of a code gives the code back. */
  lemma Nt4OfDecode(code: nat)
    requires code <= 4
    ensures Nt4(DecodeBase(code) as int) == code
  {
  }

  /** A whole read, byte by byte (the loops at src/main.c:207-208). */
  function Encode(s: seq<byte>): (codes: seq<byte>)
    ensures |codes| == |s|
    ensures forall i :: 0 <= i < |s| ==> codes[i] == Nt4(s[i]) && codes[i] <= 4
  {
    seq(|s|, i requires 0 <= i < |s| => Nt4(s[i]))
  }

  predicate IsCodes(codes: seq<byte>) {
    forall i :: 0 <= i < |codes| ==> codes[i] <= 4
  }

  /** The read printed back from its codes (src/main.c:261-263). */
  function Decode(codes: seq<byte>): (text: string)
    requires IsCodes(codes)
    ensures |text| == |codes|
  {
    seq(|codes|, i requires 0 <= i < |codes| => DecodeBase(codes[i]))
  }

  /** Printing the encoded read shows the read upper-cased, with every
      byte outside ACGTacgt replaced by 'N'. */
  lemma DecodeEncode(s: seq<byte>)
    ensures Decode(Encode(s)) == seq(|s|, i requires 0 <= i < |s| => Normalized(s[i]))
  {
    forall i | 0 <= i < |s| ensures Decode(Encode(s))[i] == Normalized(s[i]) {
      DecodeNt4(s[i]);
    }
  }

  /** The index the source really computes, `(int)query[i]`: the byte read as
      a C `char`, which is signed on the x86-64 and i386 ABIs. */
  function CharIndex(b: byte): (i: int)
    ensures -128 <= i < 128
    ensures i == b <==> b < 128
  {
    if b < 128 then b else b - 256
  }

  /** `seq_nt4_table[(int)query[i]]` as written: `None` where the index falls
      outside the table, which C leaves undefined. */
  function Nt4AsWritten(b: byte): (r: Option<nat>)
    ensures r.Some? <==> b < 128
    ensures r.Some? ==> r.value == TableEntry(b)
  {
    var i := CharIndex(b);
    if 0 <= i < 256 then Some(TableEntry(i)) else None
  }

  /** Every byte from 0x80 up indexes before the start of the table. */
  lemma HighByteIndexesBeforeTable(b: byte)
    requires 128 <= b
    ensures CharIndex(b) < 0 && Nt4AsWritten(b) == None
  {
  }

  /** On ASCII the code as written is the corrected code. */
  lemma AsWrittenAgreesOnAscii(b: byte)
    requires b < 128
    ensures Nt4AsWritten(b) == Some(Nt4(b))
  {
  }

  /** The first byte of UTF-8 'é' (0xC3) reads `seq_nt4_table[-61]`. */
  lemma Utf8LeadByteOutsideTable()
    ensures CharIndex(0xC3) == -61 && Nt4AsWritten(0xC3) == None && Nt4(0xC3) == 4
  {
  }
}
