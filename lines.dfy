/** How the driver cuts the input into rows: Python 2's str.splitlines,
    which ends a line at '\n', at '\r' or at the pair "\r\n", and drops a
    final line break. */
module Lines {

  predicate IsBreak(ch: char) {
    ch == '\n' || ch == '\r'
  }

  /** The index of the first line break at or after i, |s| when there is
      none. */
  function FirstBreakFrom(s: string, i: nat): (k: nat)
    requires i <= |s|
    ensures i <= k <= |s|
    ensures k < |s| ==> IsBreak(s[k])
    decreases |s| - i
  {
    if i == |s| || IsBreak(s[i]) then i else FirstBreakFrom(s, i + 1)
  }

  /** No break comes between i and the first break at or after i. */
  lemma {:induction false} FirstBreakIsFirst(s: string, i: nat)
    requires i <= |s|
    ensures forall j :: i <= j < FirstBreakFrom(s, i) ==> !IsBreak(s[j])
    decreases |s| - i
  {
    if i < |s| && !IsBreak(s[i]) {
      FirstBreakIsFirst(s, i + 1);
    }
  }

  /** Where the next line starts after the break at k: past both
      characters of "\r\n", past the one character of any other break. */
  function Next(s: string, k: nat): (n: nat)
    requires k < |s|
    ensures k < n <= |s|
  {
    if s[k] == '\r' && k + 1 < |s| && s[k + 1] == '\n' then k + 2 else k + 1
  }

  /** The lines of s[i..]. */
  function SplitFrom(s: string, i: nat): (lines: seq<string>)
    requires i <= |s|
    ensures i == |s| <==> lines == []
    decreases |s| - i
  {
    if i == |s| then []
    else
      var k := FirstBreakFrom(s, i);
      if k == |s| then [s[i..]]
      else [s[i..k]] + SplitFrom(s, Next(s, k))
  }

  function SplitLines(s: string): (lines: seq<string>)
    ensures s == [] <==> lines == []
  {
    SplitFrom(s, 0)
  }

  /** No line holds a line break. */
  lemma {:induction false} LinesHoldNoBreak(s: string, i: nat)
    requires i <= |s|
    ensures forall k, j :: 0 <= k < |SplitFrom(s, i)| && 0 <= j < |SplitFrom(s, i)[k]| ==> !IsBreak(SplitFrom(s, i)[k][j])
    decreases |s| - i
  {
    if i < |s| {
      var k := FirstBreakFrom(s, i);
      if k < |s| {
        var next := Next(s, k);
        FirstBreakIsFirst(s, i);
        LinesHoldNoBreak(s, next);
        var tail := SplitFrom(s, next);
        assert SplitFrom(s, i) == [s[i..k]] + tail;
        forall n, j | 0 <= n < |SplitFrom(s, i)| && 0 <= j < |SplitFrom(s, i)[n]|
          ensures !IsBreak(SplitFrom(s, i)[n][j])
        {
          if n > 0 {
            assert SplitFrom(s, i)[n] == tail[n - 1];
          } else {
            assert SplitFrom(s, i)[n][j] == s[i + j];
          }
        }
      } else {
        FirstBreakIsFirst(s, i);
        forall j | 0 <= j < |s[i..]|
          ensures !IsBreak(s[i..][j])
        {
          assert s[i..][j] == s[i + j];
        }
      }
    }
  }

  /** The lines joined back with '\n' between them. */
  function Join(lines: seq<string>): string
    decreases |lines|
  {
    if lines == [] then []
    else if |lines| == 1 then lines[0]
    else lines[0] + "\n" + Join(lines[1..])
  }

  /** s holds no carriage return. */
  predicate NoCarriageReturn(s: string) {
    forall j :: 0 <= j < |s| ==> s[j] != '\r'
  }

  /** When the first break at or after i is a '\n', the split cuts there
      and goes on right after it. */
  lemma SplitAtNewline(s: string, i: nat, k: nat)
    requires i < |s| && k == FirstBreakFrom(s, i) && k < |s| && s[k] == '\n'
    ensures SplitFrom(s, i) == [s[i..k]] + SplitFrom(s, k + 1)
  {
    assert Next(s, k) == k + 1;
  }

  lemma JoinCons(line: string, tail: seq<string>)
    requires tail != []
    ensures Join([line] + tail) == line + "\n" + Join(tail)
  {
    assert ([line] + tail)[1..] == tail;
  }

  lemma Reassemble(s: string, i: nat, k: nat)
    requires i <= k < |s| && s[k] == '\n'
    ensures s[i..] == s[i..k] + "\n" + s[k + 1..]
  {
  }

  /** One step of the round trip: if the text after the first '\n' comes
      back from its lines, so does the text from i on. */
  lemma JoinSplitStep(s: string, i: nat, k: nat)
    requires i < |s| && k == FirstBreakFrom(s, i) && k + 1 < |s| && s[k] == '\n'
    requires Join(SplitFrom(s, k + 1)) == s[k + 1..]
    ensures Join(SplitFrom(s, i)) == s[i..]
  {
    SplitAtNewline(s, i, k);
    JoinCons(s[i..k], SplitFrom(s, k + 1));
    Reassemble(s, i, k);
  }

  /** Without a break after i, the text from i on is one line. */
  lemma JoinSplitLast(s: string, i: nat)
    requires i < |s| && FirstBreakFrom(s, i) == |s|
    ensures Join(SplitFrom(s, i)) == s[i..]
  {
    assert SplitFrom(s, i) == [s[i..]];
  }

  lemma {:induction false} JoinSplitFrom(s: string, i: nat)
    requires NoCarriageReturn(s) && i <= |s|
    requires s == [] || s[|s| - 1] != '\n'
    ensures Join(SplitFrom(s, i)) == s[i..]
    decreases |s| - i
  {
    if i < |s| {
      var k := FirstBreakFrom(s, i);
      if k < |s| {
        assert s[k] != '\r';
        JoinSplitFrom(s, k + 1);
        JoinSplitStep(s, i, k);
      } else {
        JoinSplitLast(s, i);
      }
    }
  }

  /** A text without carriage returns that does not end in a line break is
      exactly its lines joined with '\n': the split loses nothing and adds
      nothing. */
  lemma JoinSplitLines(s: string)
    requires NoCarriageReturn(s)
    requires s == [] || s[|s| - 1] != '\n'
    ensures Join(SplitLines(s)) == s
  {
    JoinSplitFrom(s, 0);
    assert s[0..] == s;
  }
}
