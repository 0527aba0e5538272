/** The line buffers `fgets` fills: a byte array holding a string of `len`
    bytes. Both programs strip one trailing newline in place. */
module Buffers {
  import opened MachineInts
  import opened BaseEncoding

  /** A line without its trailing newline, if it has one. */
  function StripLF(line: seq<byte>): (r: seq<byte>)
    ensures 0 < |line| && line[|line| - 1] == LF ==> r + [LF] == line
    ensures !(0 < |line| && line[|line| - 1] == LF) ==> r == line
  {
    if 0 < |line| && line[|line| - 1] == LF then line[..|line| - 1] else line
  }

  /** Only one newline goes: a line ending in two keeps one of them. */
  lemma StripLFOnce(line: seq<byte>)
    ensures StripLF(line + [LF, LF]) == line + [LF]
  {
    assert (line + [LF, LF])[..|line| + 1] == line + [LF];
  }

  /** The whole buffer after the strip: the newline, if any, overwritten by
      the string's new terminating NUL. */
  function Stripped(buf: seq<byte>, len: nat): (r: seq<byte>)
    requires 0 < len <= |buf|
    ensures |r| == |buf|
  {
    if buf[len - 1] == LF then buf[len - 1 := 0] else buf
  }

  /** `if (query[ql-1] == '\n') { query[ql-1] = '\0'; ql--; }` (src/main.c:203-204,
      main.c:112-113). `fgets` returning a line guarantees `len >= 1`. */
  method StripNewline(buf: array<byte>, len: nat) returns (n: nat)
    requires 0 < len <= buf.Length
    modifies buf
    ensures n == len - 1 <==> old(buf[len - 1]) == LF
    ensures n == len || n == len - 1
    ensures buf[..n] == StripLF(old(buf[..len]))
    ensures buf[..] == Stripped(old(buf[..]), len)
  {
    n := len;
    if buf[len - 1] == LF {
      buf[len - 1] := 0;
      n := len - 1;
    }
  }
}
