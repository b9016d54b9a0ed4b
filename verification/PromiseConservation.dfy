/** Nothing promised is lost and nothing is invented. */
module PromiseConservation {
  import opened Text
  import opened PromiseReader
  import opened PromiseRoundTrip

  /** The line without its marker. */
  function Unmark(line: string): string {
    if Marked(line).Some? then Marked(line).value else line
  }

  /** The marker a line opens with, empty for a line that is not marked. */
  function MarkerOf(line: string): string {
    if Marked(line).Some? then SkipGap(line)[..MarkerLength(SkipGap(line))] else ""
  }

  /** The visible characters of all lines, each line's marker first. */
  function Told(lines: seq<string>): string {
    if lines == [] then "" else MarkerOf(lines[0]) + Solid(Unmark(lines[0])) + Told(lines[1..])
  }

  /** The visible characters of all lines, markers taken off. */
  function Promised(lines: seq<string>): string {
    if lines == [] then "" else Solid(Unmark(lines[0])) + Promised(lines[1..])
  }

  lemma {:induction false} SolidOfSkipGap(s: string)
    ensures Solid(SkipGap(s)) == Solid(s)
  {
    if s != "" && Gap(s[0]) { SolidOfSkipGap(s[1..]); }
  }

  lemma {:induction false} SolidOfVisible(s: string)
    requires forall i :: 0 <= i < |s| ==> !Space(s[i])
    ensures Solid(s) == s
  {
    if s == "" {
    } else {
      SolidOfVisible(s[1..]);
    }
  }

  lemma VisibleMarkerAndBody(line: string)
    ensures Solid(line) == MarkerOf(line) + Solid(Unmark(line))
    ensures Marked(line).Some? ==> Marker(MarkerOf(line)) && |MarkerOf(line)| <= 3
  {
    if Marked(line).Some? {
      var rest := SkipGap(line);
      var n := MarkerLength(rest);
      SolidOfSkipGap(line);
      assert rest == rest[..n] + rest[n..];
      SolidOfSum(rest[..n], rest[n..]);
      SolidOfVisible(rest[..n]);
      SolidOfSkipGap(rest[n..]);
    }
  }

  /** A marked line is blanks, a marker of at most three characters, blanks and its captured text. */
  lemma MarkerAndBody(line: string)
    ensures Marked(line).Some? ==>
              && LayoutOf(line).Valid() && line == LayoutOf(line).Line(Unmark(line))
              && LayoutOf(line).marker == MarkerOf(line) && |MarkerOf(line)| <= 3
    ensures Solid(line) == MarkerOf(line) + Solid(Unmark(line))
  {
    if Marked(line).Some? { MarkedLineIsLaidOut(line); }
    VisibleMarkerAndBody(line);
  }

  lemma {:induction false} ToldIsEverything(lines: seq<string>)
    ensures Solid(Cat(lines)) == Told(lines)
  {
    if lines == [] {
    } else {
      SolidOfSum(lines[0], Cat(lines[1..]));
      VisibleMarkerAndBody(lines[0]);
      ToldIsEverything(lines[1..]);
    }
  }

  lemma CatOfFront(front: string, rest: seq<string>)
    ensures Cat([front] + rest) == front + Cat(rest)
    ensures front == "" ==> Cat([front] + rest) == Cat(rest)
  {
    assert ([front] + rest)[1..] == rest;
  }

  lemma CatOfLongerFront(c: char, rest: seq<string>)
    requires rest != []
    ensures Cat([[c] + rest[0]] + rest[1..]) == [c] + Cat(rest)
  {
    CatOfFront([c] + rest[0], rest[1..]);
    Regroup([c], rest[0], Cat(rest[1..]));
  }

  lemma SolidOfFront(c: char, s: string)
    ensures Solid([c] + s) == if Space(c) then Solid(s) else [c] + Solid(s)
  {
    assert ([c] + s)[1..] == s;
    assert "" + Solid(s) == Solid(s);
  }

  /** Cutting a text into lines drops line ends only. */
  lemma {:induction false} SplitKeepsVisible(s: string)
    ensures Solid(Cat(SplitLines(s))) == Solid(s)
  {
    if s == "" {
    } else if s[0] == '\n' {
      SplitKeepsVisible(s[1..]);
      CatOfFront("", SplitLines(s[1..]));
      assert s == [s[0]] + s[1..];
      SolidOfFront(s[0], s[1..]);
    } else if |s| > 1 && s[0] == '\r' && s[1] == '\n' {
      SplitKeepsVisible(s[2..]);
      CatOfFront("", SplitLines(s[2..]));
      assert s == [s[0]] + ([s[1]] + s[2..]);
      SolidOfFront(s[0], [s[1]] + s[2..]);
      SolidOfFront(s[1], s[2..]);
    } else {
      SplitKeepsVisible(s[1..]);
      CatOfLongerFront(s[0], SplitLines(s[1..]));
      SolidOfFront(s[0], Cat(SplitLines(s[1..])));
    }
  }

  function Open(cur: Option<string>): string {
    if cur.None? then "" else cur.value
  }

  lemma ClosedKeepsVisible(cur: Option<string>)
    ensures Solid(Cat(Closed(cur))) == Solid(Open(cur))
  {
    if cur.Some? {
      SolidOfTrim(cur.value);
      if Trim(cur.value) != "" {
        assert Cat([Trim(cur.value)]) == Trim(cur.value) + Cat([]) == Trim(cur.value);
      }
    }
  }

  lemma ContinuedKeepsVisible(cur: Option<string>, line: string)
    ensures Solid(Open(Continued(cur, line))) == Solid(Open(cur)) + Solid(line)
  {
    SolidOfTrim(line);
    if cur.Some? {
      SolidOfSum(cur.value + " ", Trim(line));
      SolidOfSum(cur.value, " ");
      assert Solid(" ") == "";
    }
  }

  lemma ClosedThenMore(cur: Option<string>, more: seq<string>)
    ensures Solid(Cat(Closed(cur) + more)) == Solid(Open(cur)) + Solid(Cat(more))
  {
    ClosedKeepsVisible(cur);
    CatOfSum(Closed(cur), more);
    SolidOfSum(Cat(Closed(cur)), Cat(more));
  }

  lemma {:induction false} ReadKeepsVisible(lines: seq<string>, cur: Option<string>)
    ensures Solid(Cat(Read(lines, cur))) == Solid(Open(cur)) + Promised(lines)
  {
    if lines == [] {
      ClosedKeepsVisible(cur);
    } else if Marked(lines[0]).Some? {
      var next := Some(Trim(Marked(lines[0]).value));
      ReadKeepsVisible(lines[1..], next);
      ClosedThenMore(cur, Read(lines[1..], next));
      SolidOfTrim(Marked(lines[0]).value);
      assert Promised(lines) == Solid(Open(next)) + Promised(lines[1..]);
    } else if Trim(lines[0]) == "" {
      ReadKeepsVisible(lines[1..], None);
      ClosedThenMore(cur, Read(lines[1..], None));
      SolidOfTrim(lines[0]);
      assert Promised(lines) == "" + Promised(lines[1..]);
    } else {
      ReadKeepsVisible(lines[1..], Continued(cur, lines[0]));
      ContinuedKeepsVisible(cur, lines[0]);
      Regroup(Solid(Open(cur)), Solid(lines[0]), Promised(lines[1..]));
    }
  }

  lemma CatOfOne(s: string)
    ensures Cat([s]) == s
  {
    assert [s][1..] == [];
  }

  /**
   * For every written promise: the visible characters of the text are, line by line, the
   * line's marker followed by its words; the visible characters of the items, in order, are
   * the same with the markers taken off. An unmarked text keeps all of them.
   */
  lemma NothingLostOrInvented(text: string)
    ensures var lines := SplitLines(Trim(text));
            && Solid(text) == Told(lines)
            && Solid(Cat(Acceptance(Written(text)))) == if HasMark(lines) then Promised(lines) else Solid(text)
  {
    var lines := SplitLines(Trim(text));
    SolidOfTrim(text);
    SplitKeepsVisible(Trim(text));
    ToldIsEverything(lines);
    ReadKeepsVisible(lines, None);
    CatOfOne(Trim(text));
  }
}
