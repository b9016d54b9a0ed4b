/** Printing a list of promises and reading it back. */
module PromiseRoundTrip {
  import opened Text
  import opened PromiseReader

  // ------------------------------------------------- one printed line

  /** How one item is laid out on its line: blanks, an accepted marker, blanks. */
  datatype Layout = Layout(indent: string, marker: string, gap: string) {
    predicate Valid() {
      AllGap(indent) && Marker(marker) && gap != "" && AllGap(gap)
    }

    function Line(item: string): string {
      indent + (marker + (gap + item))
    }
  }

  predicate Sayable(item: string) {
    item != "" && Trimmed(item) && SingleLine(item)
  }

  lemma {:induction false} SkipGapOver(a: string, b: string)
    requires AllGap(a) && (b == "" || !Gap(b[0]))
    ensures SkipGap(a + b) == b
  {
    if a == "" {
      assert a + b == b;
    } else {
      assert (a + b)[1..] == a[1..] + b;
      SkipGapOver(a[1..], b);
    }
  }

  lemma MarkerOver(m: string, rest: string)
    requires Marker(m)
    ensures MarkerLength(m + rest) == |m| && !Gap(m[0]) && !Space(m[0])
    ensures (m + rest)[|m|..] == rest
  {
  }

  lemma LaidOutLineIsMarked(l: Layout, item: string)
    requires l.Valid() && item != "" && !Space(item[0])
    ensures Marked(l.Line(item)) == if SingleLine(item) then Some(item) else None
  {
    var rest := l.marker + (l.gap + item);
    MarkerOver(l.marker, l.gap + item);
    assert rest[0] == l.marker[0];
    SkipGapOver(l.indent, rest);
    SkipGapOver(l.gap, item);
  }

  /** How a marked line is laid out. */
  function LayoutOf(line: string): Layout
    requires Marked(line).Some?
  {
    var rest := SkipGap(line);
    var after := rest[MarkerLength(rest)..];
    Layout(line[..|line| - |rest|], rest[..MarkerLength(rest)], after[..|after| - |SkipGap(after)|])
  }

  lemma {:induction false} GapIsCut(s: string)
    ensures AllGap(s[..|s| - |SkipGap(s)|]) && s == s[..|s| - |SkipGap(s)|] + SkipGap(s)
  {
    if s != "" && Gap(s[0]) {
      GapIsCut(s[1..]);
      var cut := |s| - |SkipGap(s)|;
      assert s[..cut] == [s[0]] + s[1..][..cut - 1];
    }
  }

  lemma MarkParts(line: string)
    requires Marked(line).Some?
    ensures var rest := SkipGap(line);
            var n := MarkerLength(rest);
            n > 0 && |SkipGap(rest[n..])| < |rest[n..]| && Marked(line).value == SkipGap(rest[n..])
  {
  }

  lemma Assembled(a: string, rest: string, n: nat, gap: string, item: string)
    requires n <= |rest| && rest[n..] == gap + item
    ensures Layout(a, rest[..n], gap).Line(item) == a + rest
  {
    assert rest == rest[..n] + rest[n..];
  }

  lemma MarkerIsItsOwn(s: string)
    requires MarkerLength(s) > 0
    ensures Marker(s[..MarkerLength(s)])
  {
  }

  /** A marked line is blanks, an accepted marker, blanks and its captured text, and nothing else. */
  lemma MarkedLineIsLaidOut(line: string)
    requires Marked(line).Some?
    ensures LayoutOf(line).Valid() && line == LayoutOf(line).Line(Marked(line).value)
  {
    var rest := SkipGap(line);
    var n := MarkerLength(rest);
    var after := rest[n..];
    MarkParts(line);
    GapIsCut(line);
    GapIsCut(after);
    MarkerIsItsOwn(rest);
    hide Marked, SkipGap, MarkerLength;
    Assembled(line[..|line| - |rest|], rest, n, after[..|after| - |SkipGap(after)|], SkipGap(after));
  }

  // ------------------------------------------------- lines joined and cut again

  /** A line the splitter cannot cut or shorten. */
  predicate Flat(line: string) {
    (forall i :: 0 <= i < |line| ==> line[i] != '\n') && (line != "" ==> line[|line| - 1] != '\r')
  }

  predicate LineEnd(sep: string) {
    sep == "\n" || sep == "\r\n"
  }

  lemma {:induction false} SplitAtEnd(line: string)
    requires Flat(line)
    ensures SplitLines(line) == [line]
  {
    if line == "" {
    } else {
      SplitAtEnd(line[1..]);
      assert [line[0]] + line[1..] == line;
    }
  }

  lemma {:induction false} SplitAtSep(line: string, sep: string, rest: string)
    requires Flat(line) && LineEnd(sep)
    ensures SplitLines(line + sep + rest) == [line] + SplitLines(rest)
  {
    var s := line + sep + rest;
    if line == "" {
      assert s == sep + rest && s[|sep|..] == rest;
    } else {
      assert s[1..] == line[1..] + sep + rest;
      SplitAtSep(line[1..], sep, rest);
      assert s[0] == line[0];
      assert !(|s| > 1 && s[0] == '\r' && s[1] == '\n') by {
        if |line| > 1 { assert s[1] == line[1]; }
      }
      assert [line[0]] + line[1..] == line;
    }
  }

  lemma {:induction false} SplitOfJoin(lines: seq<string>, sep: string)
    requires lines != [] && LineEnd(sep)
    requires forall i :: 0 <= i < |lines| ==> Flat(lines[i])
    ensures SplitLines(Join(lines, sep)) == lines
  {
    if |lines| == 1 {
      SplitAtEnd(lines[0]);
    } else {
      forall i | 0 <= i < |lines[1..]| ensures Flat(lines[1..][i]) { assert lines[1..][i] == lines[i + 1]; }
      SplitOfJoin(lines[1..], sep);
      SplitAtSep(lines[0], sep, Join(lines[1..], sep));
      assert [lines[0]] + lines[1..] == lines;
    }
  }

  lemma {:induction false} JoinHasEnd(lines: seq<string>, sep: string)
    requires lines != [] && lines[|lines| - 1] != ""
    ensures var text := Join(lines, sep);
            text != "" && text[|text| - 1] == lines[|lines| - 1][|lines[|lines| - 1]| - 1]
  {
    if |lines| > 1 {
      JoinHasEnd(lines[1..], sep);
      var text, tail := Join(lines, sep), Join(lines[1..], sep);
      assert text[|text| - 1] == tail[|tail| - 1];
    }
  }

  /** Joined lines begin where the first begins and end where the last ends. */
  lemma {:induction false} JoinEnds(lines: seq<string>, sep: string)
    requires lines != [] && lines[0] != "" && lines[|lines| - 1] != ""
    ensures var text := Join(lines, sep);
            text != "" && text[0] == lines[0][0] && text[|text| - 1] == lines[|lines| - 1][|lines[|lines| - 1]| - 1]
    ensures |Join(lines, sep)| >= |lines[0]|
  {
    if |lines| > 1 { JoinHasEnd(lines[1..], sep); }
  }

  lemma JoinCons(head: string, tail: seq<string>, sep: string)
    ensures Join([head] + tail, sep) == if tail == [] then head else head + sep + Join(tail, sep)
  {
    if tail != [] { assert ([head] + tail)[1..] == tail; } else { assert [head] + tail == [head]; }
  }

  lemma JoinOfIndented(a: string, b: string, rest: seq<string>, sep: string)
    ensures Join([a + b] + rest, sep) == a + Join([b] + rest, sep)
  {
    JoinCons(a + b, rest, sep);
    JoinCons(b, rest, sep);
    if rest != [] {
      assert a + b + sep + Join(rest, sep) == a + (b + sep + Join(rest, sep));
    }
  }

  // ------------------------------------------------- the round trip

  lemma {:induction false} ReadOfMarked(lines: seq<string>, items: seq<string>, cur: Option<string>)
    requires |lines| == |items| && Clean(items)
    requires forall i :: 0 <= i < |lines| ==> Marked(lines[i]) == Some(items[i])
    ensures Read(lines, cur) == Closed(cur) + items
  {
    if lines == [] {
      assert Closed(cur) + items == Closed(cur);
    } else {
      assert Marked(lines[0]) == Some(items[0]);
      assert items[0] != "" && Trimmed(items[0]);
      forall i | 0 <= i < |lines[1..]|
        ensures Marked(lines[1..][i]) == Some(items[1..][i]) && items[1..][i] != "" && Trimmed(items[1..][i])
      {
        assert lines[1..][i] == lines[i + 1] && items[1..][i] == items[i + 1];
      }
      ReadOfMarked(lines[1..], items[1..], Some(items[0]));
      assert items == [items[0]] + items[1..];
      assert Closed(cur) + ([items[0]] + items[1..]) == Closed(cur) + items;
    }
  }

  lemma ReadBack(text: string, lines: seq<string>, items: seq<string>)
    requires lines != [] && |lines| == |items| && Clean(items)
    requires forall i :: 0 <= i < |lines| ==> Marked(lines[i]) == Some(items[i])
    requires Trim(text) != "" && SplitLines(Trim(text)) == lines
    ensures Acceptance(Written(text)) == items
  {
    ReadOfMarked(lines, items, None);
    assert Marked(lines[0]).Some?;
    assert Closed(None) + items == items;
  }

  predicate AllSayable(items: seq<string>) {
    forall i :: 0 <= i < |items| ==> Sayable(items[i])
  }

  predicate AllValid(layouts: seq<Layout>) {
    forall i :: 0 <= i < |layouts| ==> layouts[i].Valid()
  }

  function Lines(layouts: seq<Layout>, items: seq<string>): (r: seq<string>)
    requires |layouts| == |items|
    ensures |r| == |items| && forall i :: 0 <= i < |r| ==> r[i] == layouts[i].Line(items[i])
  {
    seq(|items|, i requires 0 <= i < |items| => layouts[i].Line(items[i]))
  }

  lemma MarkerIsFlat(m: string)
    requires Marker(m)
    ensures forall i :: 0 <= i < |m| ==> m[i] != '\n'
  {
  }

  lemma LineShape(l: Layout, item: string)
    requires l.Valid() && Sayable(item)
    ensures Flat(l.Line(item)) && l.Line(item) != ""
    ensures l.Line(item)[|l.Line(item)| - 1] == item[|item| - 1]
    ensures Marked(l.Line(item)) == Some(item)
    ensures l.indent == "" ==> l.Line(item)[0] == l.marker[0]
  {
    LaidOutLineIsMarked(l, item);
    MarkerOver(l.marker, "");
    MarkerIsFlat(l.marker);
  }

  lemma LinesWithoutIndent(layouts: seq<Layout>, items: seq<string>)
    requires items != [] && |layouts| == |items|
    ensures var lines := Lines(layouts[0 := layouts[0].(indent := "")], items);
            && lines == [lines[0]] + lines[1..]
            && Lines(layouts, items) == [layouts[0].indent + lines[0]] + lines[1..]
  {
    var bare := layouts[0].(indent := "");
    var lines := Lines(layouts[0 := bare], items);
    assert lines[0] == bare.Line(items[0]) == bare.marker + (bare.gap + items[0]);
  }

  lemma JoinedLinesAreTrimmed(layouts: seq<Layout>, items: seq<string>, sep: string)
    requires items != [] && AllSayable(items) && |layouts| == |items| && AllValid(layouts)
    requires layouts[0].indent == ""
    ensures Join(Lines(layouts, items), sep) != "" && Trimmed(Join(Lines(layouts, items), sep))
  {
    var last := |items| - 1;
    assert Sayable(items[0]) && Sayable(items[last]) && layouts[0].Valid() && layouts[last].Valid();
    LineShape(layouts[0], items[0]);
    LineShape(layouts[last], items[last]);
    MarkerOver(layouts[0].marker, "");
    JoinEnds(Lines(layouts, items), sep);
  }

  lemma GapIsSpace(s: string)
    requires AllGap(s)
    ensures AllSpace(s)
  {
  }

  lemma LeadingIndentIsTrimmed(layouts: seq<Layout>, items: seq<string>, sep: string)
    requires items != [] && AllSayable(items) && |layouts| == |items| && AllValid(layouts)
    ensures var lines := Lines(layouts[0 := layouts[0].(indent := "")], items);
            Join(lines, sep) != "" && Trim(Join(Lines(layouts, items), sep)) == Join(lines, sep)
  {
    var bare := layouts[0].(indent := "");
    var front := layouts[0 := bare];
    assert layouts[0].Valid();
    assert AllValid(front);
    LinesWithoutIndent(layouts, items);
    JoinedLinesAreTrimmed(front, items, sep);
    var lines := Lines(front, items);
    JoinOfIndented(layouts[0].indent, lines[0], lines[1..], sep);
    GapIsSpace(layouts[0].indent);
    TrimOfIndented(layouts[0].indent, Join(lines, sep));
  }

  /**
   * Any list of trimmed, single-line, non-empty items, printed one to a line with any accepted
   * marker, any blanks around it and either line ending, reads back as itself.
   */
  lemma PrintedListReadsBack(layouts: seq<Layout>, items: seq<string>, sep: string)
    requires items != [] && AllSayable(items) && |layouts| == |items| && AllValid(layouts) && LineEnd(sep)
    ensures Acceptance(Written(Join(Lines(layouts, items), sep))) == items
  {
    var bare := layouts[0].(indent := "");
    var front := layouts[0 := bare];
    var lines, printed := Lines(front, items), Lines(layouts, items);
    forall i | 0 <= i < |items|
      ensures Flat(lines[i]) && Marked(lines[i]) == Some(items[i]) && items[i] != "" && Trimmed(items[i])
    {
      assert Sayable(items[i]) && layouts[i].Valid();
      LineShape(front[i], items[i]);
    }
    LeadingIndentIsTrimmed(layouts, items, sep);
    SplitOfJoin(lines, sep);
    ReadBack(Join(printed, sep), lines, items);
  }
}
