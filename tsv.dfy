/** Tab-separated output lines: the record and header lines the program
    writes are their fields joined by '\t'. `Split` is the reader's side. */
module Tsv {

  predicate TabFree(s: string) {
    forall i :: 0 <= i < |s| ==> s[i] != '\t'
  }

  /** The fields, in order, with one '\t' between neighbours. */
  function Join(fields: seq<string>): (line: string)
    requires 0 < |fields|
  {
    if |fields| == 1 then fields[0] else fields[0] + "\t" + Join(fields[1..])
  }

  /** Cuts a line at every '\t'. */
  function Split(s: string): (fields: seq<string>)
    ensures 0 < |fields|
    decreases |s|
  {
    if s == [] then [[]]
    else
      var rest := Split(s[1..]);
      if s[0] == '\t' then [[]] + rest else [[s[0]] + rest[0]] + rest[1..]
  }

  lemma {:induction false} SplitField(f: string, rest: string)
    requires TabFree(f)
    ensures Split(f + rest) == [f + Split(rest)[0]] + Split(rest)[1..]
    decreases |f|
  {
    if f != [] {
      assert (f + rest)[0] == f[0] && (f + rest)[1..] == f[1..] + rest;
      SplitField(f[1..], rest);
      assert [f[0]] + (f[1..] + Split(rest)[0]) == f + Split(rest)[0];
    } else {
      assert f + rest == rest && f + Split(rest)[0] == Split(rest)[0];
      assert Split(rest) == [Split(rest)[0]] + Split(rest)[1..];
    }
  }

  /** Splitting a joined line of tab-free fields gives the fields back, so
      the number of columns is the number of fields. */
  lemma {:induction false} SplitJoin(fields: seq<string>)
    requires 0 < |fields|
    requires forall i :: 0 <= i < |fields| ==> TabFree(fields[i])
    ensures Split(Join(fields)) == fields
    decreases |fields|
  {
    if |fields| == 1 {
      SplitField(fields[0], []);
      assert fields[0] + [] == fields[0];
    } else {
      var tail := Join(fields[1..]);
      SplitJoin(fields[1..]);
      assert fields[0] + "\t" + tail == fields[0] + ("\t" + tail);
      SplitField(fields[0], "\t" + tail);
      assert ("\t" + tail)[0] == '\t' && ("\t" + tail)[1..] == tail;
      assert Split("\t" + tail) == [[]] + fields[1..];
      assert fields[0] + [] == fields[0];
      assert fields == [fields[0]] + fields[1..];
    }
  }
}
