// Byte strings and their lines, as `slice::split(|b| b == '\n')` cuts them.
module Bytes {

  newtype byte = x: int | 0 <= x < 256

  type Text = seq<byte>

  const NEWLINE: byte := 10
  const RETURN: byte := 13

  predicate IsSpace(b: byte) {
    b == 32 || b == 9 || b == 10 || b == 12 || b == 13
  }

  predicate Blank(s: Text) {
    forall i :: 0 <= i < |s| ==> IsSpace(s[i])
  }

  predicate OneLine(s: Text) {
    forall i :: 0 <= i < |s| ==> s[i] != NEWLINE
  }

  function StripReturn(s: Text): Text {
    if |s| > 0 && s[|s| - 1] == RETURN then s[..|s| - 1] else s
  }

  /** Index of the first newline at or after `i`, or the length. */
  function NextNewline(s: Text, i: nat): (k: nat)
    requires i <= |s|
    ensures i <= k <= |s|
    ensures forall j :: i <= j < k ==> s[j] != NEWLINE
    ensures k < |s| ==> s[k] == NEWLINE
    decreases |s| - i
  {
    if i == |s| || s[i] == NEWLINE then i else NextNewline(s, i + 1)
  }

  /** The pieces between newlines: n newlines give n + 1 pieces. */
  function SplitLines(s: Text): (lines: seq<Text>)
    ensures |lines| >= 1
    decreases |s|
  {
    var k := NextNewline(s, 0);
    if k == |s| then [s] else [s[..k]] + SplitLines(s[k + 1..])
  }

  lemma SplitFirst(line: Text, rest: Text)
    requires OneLine(line)
    ensures SplitLines(line + [NEWLINE] + rest) == [line] + SplitLines(rest)
  {
    var s := line + [NEWLINE] + rest;
    var k := NextNewline(s, 0);
    assert s[|line|] == NEWLINE;
    assert forall j :: 0 <= j < |line| ==> s[j] == line[j];
    assert k == |line|;
    assert s[..k] == line;
    assert s[k + 1..] == rest;
  }

  lemma SplitLast(line: Text)
    requires OneLine(line)
    ensures SplitLines(line) == [line]
  {
    assert NextNewline(line, 0) == |line|;
  }

  lemma StripKeepsBlank(s: Text)
    ensures Blank(StripReturn(s)) <==> Blank(s)
  {
    if |s| > 0 && s[|s| - 1] == RETURN {
      assert s == StripReturn(s) + [RETURN];
      forall i | 0 <= i < |s| && Blank(StripReturn(s))
        ensures IsSpace(s[i])
      {
        if i < |s| - 1 { assert s[i] == StripReturn(s)[i]; }
      }
    }
  }
}
