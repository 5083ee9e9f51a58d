/**
 Line-oriented view of strings: counting line breaks and splitting a text
 back into its lines. Used to state what the missing-permissions dialog
 text contains.
 */
module Text {

  /** True when `s` contains no line break. */
  predicate NewlineFree(s: string) {
    forall i :: 0 <= i < |s| ==> s[i] != '\n'
  }

  /** Number of line breaks in `s`. */
  function NewlineCount(s: string): (n: nat)
    ensures n <= |s|
    ensures n == 0 <==> NewlineFree(s)
  {
    if |s| == 0 then 0
    else (if s[0] == '\n' then 1 else 0) + NewlineCount(s[1..])
  }

  /** Line breaks of a concatenation are those of its parts. */
  lemma {:induction false} NewlineCountAppend(a: string, b: string)
    ensures NewlineCount(a + b) == NewlineCount(a) + NewlineCount(b)
    decreases |a|
  {
    if |a| == 0 {
      assert a + b == b;
    } else {
      assert (a + b)[1..] == a[1..] + b;
      NewlineCountAppend(a[1..], b);
    }
  }

  lemma AppendAssociative(a: string, b: string, c: string)
    ensures (a + b) + c == a + (b + c)
  {
  }

  /** Position of the first line break in `s`, or `|s|` when there is none. */
  function FirstNewline(s: string): (k: nat)
    ensures k <= |s|
    ensures NewlineFree(s[..k])
    ensures k < |s| ==> s[k] == '\n'
  {
    if |s| == 0 then 0
    else if s[0] == '\n' then 0
    else 1 + FirstNewline(s[1..])
  }

  /** The lines of `s`, each without its terminating line break; a trailing
      piece that has no line break after it is the last line. */
  function SplitLines(s: string): (lines: seq<string>)
    ensures forall i :: 0 <= i < |lines| ==> NewlineFree(lines[i])
    ensures |lines| <= |s|
    decreases |s|
  {
    if |s| == 0 then []
    else
      var k := FirstNewline(s);
      if k == |s| then [s]
      else [s[..k]] + SplitLines(s[k + 1..])
  }

  /** Splitting a text that starts with one complete line yields that line
      followed by the lines of the rest. */
  lemma SplitLinesCons(line: string, rest: string)
    requires NewlineFree(line)
    ensures SplitLines(line + "\n" + rest) == [line] + SplitLines(rest)
  {
    var s := line + "\n" + rest;
    var k := FirstNewline(s);
    assert forall i :: 0 <= i < |line| ==> s[i] == line[i];
    assert s[|line|] == '\n';
    assert k == |line|;
    assert s[..k] == line;
    assert s[k + 1..] == rest;
  }
}
