/** Where the round trip of promises ends, and what hard wrapping does to it. */
module PromiseLimits {
  import opened Text
  import opened PromiseReader
  import opened PromiseRoundTrip

  // ------------------------------------------------- how many items come out

  function CountMarked(lines: seq<string>): nat {
    if lines == [] then 0 else (if Marked(lines[0]).Some? then 1 else 0) + CountMarked(lines[1..])
  }

  lemma {:induction false} CountIsBounded(lines: seq<string>, m: nat)
    requires forall i :: m <= i < |lines| ==> Marked(lines[i]).None?
    ensures CountMarked(lines) <= m
  {
    if lines == [] {
    } else {
      forall i | (if m == 0 then 0 else m - 1) <= i < |lines[1..]| ensures Marked(lines[1..][i]).None? {
        assert lines[1..][i] == lines[i + 1];
      }
      if m == 0 { assert Marked(lines[0]).None?; }
      CountIsBounded(lines[1..], if m == 0 then 0 else m - 1);
    }
  }

  lemma {:induction false} CountMissesOne(lines: seq<string>, k: nat)
    requires k < |lines| && Marked(lines[k]).None?
    ensures CountMarked(lines) < |lines|
  {
    if k > 0 {
      assert lines[1..][k - 1] == lines[k];
      CountMissesOne(lines[1..], k - 1);
    } else {
      CountIsBounded(lines[1..], |lines| - 1);
    }
  }

  lemma ClosedVisible(cur: Option<string>)
    requires cur.Some? && Trim(cur.value) != ""
    ensures |Closed(cur)| == 1
  {
  }

  /** Without blank lines every marked line opens one item and nothing else does. */
  lemma {:induction false} ReadCounts(lines: seq<string>, cur: Option<string>)
    requires cur.Some? && Trim(cur.value) != ""
    requires forall i :: 0 <= i < |lines| ==> Trim(lines[i]) != ""
    ensures |Read(lines, cur)| == 1 + CountMarked(lines)
  {
    if lines == [] {
    } else {
      assert Trim(lines[0]) != "";
      forall i | 0 <= i < |lines[1..]| ensures Trim(lines[1..][i]) != "" { assert lines[1..][i] == lines[i + 1]; }
      if Marked(lines[0]).Some? {
        MarkedIsVisible(lines[0]);
        ClosedVisible(cur);
        ReadCounts(lines[1..], Some(Trim(Marked(lines[0]).value)));
      } else {
        ContinuedIsVisible(cur, lines[0]);
        ReadCounts(lines[1..], Continued(cur, lines[0]));
      }
    }
  }

  lemma ReadCountsFromMark(lines: seq<string>)
    requires lines != [] && Marked(lines[0]).Some?
    requires forall i :: 0 <= i < |lines| ==> Trim(lines[i]) != ""
    ensures |Read(lines, None)| == CountMarked(lines)
  {
    MarkedIsVisible(lines[0]);
    forall i | 0 <= i < |lines[1..]| ensures Trim(lines[1..][i]) != "" { assert lines[1..][i] == lines[i + 1]; }
    ReadCounts(lines[1..], Some(Trim(Marked(lines[0]).value)));
  }

  // ------------------------------------------------- numbers: two digits and no more

  function NumberLine(n: nat, item: string): string {
    Dec(n) + (". " + item)
  }

  function Numbered(items: seq<string>): (r: seq<string>)
    ensures |r| == |items| && forall i :: 0 <= i < |r| ==> r[i] == NumberLine(i + 1, items[i])
  {
    seq(|items|, i requires 0 <= i < |items| => NumberLine(i + 1, items[i]))
  }

  lemma DecMarker(n: nat)
    ensures Marker(Dec(n) + ".") <==> n < 100
    ensures n >= 100 ==> |Dec(n)| >= 3
  {
    DecLength(n);
    var d := Dec(n);
    assert Digit(d[0]);
    if |d| == 2 { assert Digit(d[1]); }
    if |d| >= 3 { assert Digit(d[1]) && Digit(d[2]); }
  }

  lemma NumberLineShape(n: nat, item: string)
    requires Sayable(item)
    ensures Flat(NumberLine(n, item)) && NumberLine(n, item) != "" && Trimmed(NumberLine(n, item))
    ensures Marked(NumberLine(n, item)) == if n < 100 then Some(item) else None
  {
    var line := NumberLine(n, item);
    DecMarker(n);
    assert Digit(Dec(n)[0]);
    assert line[|line| - 1] == item[|item| - 1];
    if n < 100 {
      var l := Layout("", Dec(n) + ".", " ");
      LaidOutLineIsMarked(l, item);
      assert l.Line(item) == line;
    } else {
      assert SkipGap(line) == line;
      assert line[0] == Dec(n)[0] && line[1] == Dec(n)[1] && line[2] == Dec(n)[2];
      assert Digit(Dec(n)[1]) && Digit(Dec(n)[2]);
    }
  }

  lemma JoinOfTrimmed(lines: seq<string>)
    requires lines != [] && lines[0] != "" && lines[|lines| - 1] != ""
    requires Trimmed(lines[0]) && Trimmed(lines[|lines| - 1])
    ensures Join(lines, "\n") != "" && Trim(Join(lines, "\n")) == Join(lines, "\n")
    ensures |Join(lines, "\n")| >= |lines[0]|
  {
    JoinEnds(lines, "\n");
  }

  lemma NumberedShape(items: seq<string>)
    requires items != [] && AllSayable(items)
    ensures Clean(items)
    ensures forall i :: 0 <= i < |items| ==>
              var line := Numbered(items)[i];
              line != "" && Trim(line) == line && Marked(line) == if i < 99 then Some(items[i]) else None
    ensures var text := Join(Numbered(items), "\n");
            text != "" && Trim(text) == text && SplitLines(text) == Numbered(items)
  {
    var lines := Numbered(items);
    forall i | 0 <= i < |items|
      ensures Flat(lines[i]) && lines[i] != "" && Trimmed(lines[i])
      ensures items[i] != "" && Trimmed(items[i])
      ensures Marked(lines[i]) == if i < 99 then Some(items[i]) else None
    {
      assert Sayable(items[i]);
      NumberLineShape(i + 1, items[i]);
    }
    hide NumberLine;
    JoinOfTrimmed(lines);
    SplitOfJoin(lines, "\n");
  }

  /**
   * A numbered list reads back as itself exactly when it has no more than ninety-nine items: the
   * marker takes two digits.
   */
  lemma {:induction false} NumberedListReadsBack(items: seq<string>)
    requires items != [] && AllSayable(items)
    ensures Acceptance(Written(Join(Numbered(items), "\n"))) == items <==> |items| <= 99
  {
    var lines := Numbered(items);
    NumberedShape(items);
    hide NumberLine, Join, Trim, SplitLines;
    if |items| <= 99 {
      ReadBack(Join(lines, "\n"), lines, items);
    } else {
      assert Marked(lines[0]).Some?;
      ReadCountsFromMark(lines);
      CountIsBounded(lines, 99);
    }
  }

  // ------------------------------------------------- dashes: one line to an item

  function DashLine(item: string): string {
    "- " + item
  }

  function Dashed(items: seq<string>): (r: seq<string>)
    ensures |r| == |items| && forall i :: 0 <= i < |r| ==> r[i] == DashLine(items[i])
  {
    seq(|items|, i requires 0 <= i < |items| => DashLine(items[i]))
  }

  lemma DashLineShape(item: string)
    requires item != "" && Trimmed(item)
    ensures DashLine(item) != "" && Trimmed(DashLine(item)) && |DashLine(item)| > |item|
    ensures Marked(DashLine(item)) == if SingleLine(item) then Some(item) else None
    ensures (forall i :: 0 <= i < |item| ==> item[i] != '\n') ==> Flat(DashLine(item))
  {
    var l := Layout("", "-", " ");
    LaidOutLineIsMarked(l, item);
    assert l.Line(item) == DashLine(item);
    var line := DashLine(item);
    assert line[|line| - 1] == item[|item| - 1];
  }

  predicate NoNewline(s: string) {
    forall i :: 0 <= i < |s| ==> s[i] != '\n'
  }

  lemma {:induction false} SplitHasNoNewline(s: string)
    ensures forall i :: 0 <= i < |SplitLines(s)| ==> NoNewline(SplitLines(s)[i])
  {
    if s == "" {
    } else {
      if s[0] == '\n' {
        SplitHasNoNewline(s[1..]);
      } else if |s| > 1 && s[0] == '\r' && s[1] == '\n' {
        SplitHasNoNewline(s[2..]);
      } else {
        SplitHasNoNewline(s[1..]);
        assert NoNewline(SplitLines(s[1..])[0]);
      }
    }
  }

  lemma {:induction false} TrimStartHasNoNewline(s: string)
    requires NoNewline(s)
    ensures NoNewline(TrimStart(s))
  {
    if s != "" && Space(s[0]) { TrimStartHasNoNewline(s[1..]); }
  }

  lemma TrimHasNoNewline(s: string)
    requires NoNewline(s)
    ensures NoNewline(Trim(s))
  {
    TrimStartHasNoNewline(s);
  }

  lemma MarkedHasNoNewline(line: string)
    requires Marked(line).Some?
    ensures NoNewline(Marked(line).value)
  {
  }

  lemma {:induction false} ReadHasNoNewline(lines: seq<string>, cur: Option<string>)
    requires forall i :: 0 <= i < |lines| ==> NoNewline(lines[i])
    requires cur.Some? ==> NoNewline(cur.value)
    ensures forall i :: 0 <= i < |Read(lines, cur)| ==> NoNewline(Read(lines, cur)[i])
  {
    if cur.Some? { TrimHasNoNewline(cur.value); }
    if lines == [] {
    } else {
      assert NoNewline(lines[0]);
      forall i | 0 <= i < |lines[1..]| ensures NoNewline(lines[1..][i]) { assert lines[1..][i] == lines[i + 1]; }
      if Marked(lines[0]).Some? {
        MarkedHasNoNewline(lines[0]);
        TrimHasNoNewline(Marked(lines[0]).value);
        ReadHasNoNewline(lines[1..], Some(Trim(Marked(lines[0]).value)));
      } else if Trim(lines[0]) == "" {
        ReadHasNoNewline(lines[1..], None);
      } else {
        TrimHasNoNewline(lines[0]);
        ReadHasNoNewline(lines[1..], Continued(cur, lines[0]));
      }
    }
  }

  /** An item that is open only grows until it is closed. */
  lemma {:induction false} ReadKeepsFirst(lines: seq<string>, cur: string)
    requires cur != "" && Trimmed(cur)
    ensures Read(lines, Some(cur)) != [] && |Read(lines, Some(cur))[0]| >= |cur|
  {
    if lines != [] && Marked(lines[0]).None? && Trim(lines[0]) != "" {
      ReadKeepsFirst(lines[1..], cur + " " + Trim(lines[0]));
    }
  }

  /** The text a list of items makes when a dash is put in front of each. */
  function DashText(items: seq<string>): string
    requires items != []
  {
    Join(Dashed(items), "\n")
  }

  lemma DashTextShape(items: seq<string>)
    requires items != [] && Clean(items)
    ensures DashText(items) != "" && Trim(DashText(items)) == DashText(items)
    ensures |DashText(items)| > |items[0]|
    ensures forall i :: 0 <= i < |items| ==> Trim(Dashed(items)[i]) != ""
  {
    forall i | 0 <= i < |items| ensures Trim(Dashed(items)[i]) != "" {
      DashLineShape(items[i]);
    }
    DashLineShape(items[0]);
    DashLineShape(items[|items| - 1]);
    JoinOfTrimmed(Dashed(items));
  }

  lemma {:induction false} BrokenDashDiffers(items: seq<string>, k: nat)
    requires Clean(items) && k < |items| && !SingleLine(items[k])
    ensures Acceptance(Written(DashText(items))) != items
  {
    var text, lines := DashText(items), Dashed(items);
    DashTextShape(items);
    if n :| 0 <= n < |items| && !NoNewline(items[n]) {
      SplitHasNoNewline(text);
      ReadHasNoNewline(SplitLines(text), None);
    } else {
      forall i | 0 <= i < |lines|
        ensures Flat(lines[i]) && Marked(lines[i]).Some? == SingleLine(items[i])
      {
        DashLineShape(items[i]);
      }
      SplitOfJoin(lines, "\n");
      if Marked(lines[0]).Some? {
        ReadCountsFromMark(lines);
        CountMissesOne(lines, k);
      } else if HasMark(lines) {
        DashLineShape(items[0]);
        ReadKeepsFirst(lines[1..], lines[0]);
      }
    }
  }

  /** Trimmed items printed behind dashes read back as themselves exactly when none of them has a line end inside. */
  lemma DashedListReadsBack(items: seq<string>)
    requires items != [] && Clean(items)
    ensures Acceptance(Written(DashText(items))) == items <==> forall i :: 0 <= i < |items| ==> SingleLine(items[i])
  {
    if forall i :: 0 <= i < |items| ==> SingleLine(items[i]) {
      var lines := Dashed(items);
      DashTextShape(items);
      forall i | 0 <= i < |lines| ensures Flat(lines[i]) && Marked(lines[i]) == Some(items[i]) {
        DashLineShape(items[i]);
      }
      SplitOfJoin(lines, "\n");
      ReadBack(DashText(items), lines, items);
    } else {
      var k :| 0 <= k < |items| && !SingleLine(items[k]);
      BrokenDashDiffers(items, k);
    }
  }

  /** A reading printed and read again is itself exactly when it kept no line end inside an item. */
  lemma {:induction false} PrintedReadingReadsBack(text: string)
    requires Trim(text) != ""
    ensures var items := Acceptance(Written(text));
            items != [] &&
            (Acceptance(Written(DashText(items))) == items <==> forall i :: 0 <= i < |items| ==> SingleLine(items[i]))
  {
    var items := Acceptance(Written(text));
    ItemsAreClean(Written(text));
    if HasMark(SplitLines(Trim(text))) { MarkedLinesYieldItems(SplitLines(Trim(text)), None); }
    DashedListReadsBack(items);
  }

  // ------------------------------------------------- the same, told from the text

  lemma {:induction false} TrimStartStaysSingleLine(s: string)
    requires SingleLine(s)
    ensures SingleLine(TrimStart(s))
  {
    if s != "" && Space(s[0]) { TrimStartStaysSingleLine(s[1..]); }
  }

  lemma TrimStaysSingleLine(s: string)
    requires SingleLine(s)
    ensures SingleLine(Trim(s))
  {
    TrimStartStaysSingleLine(s);
  }

  lemma MarkerIsSingleLine(m: string)
    requires Marker(m)
    ensures SingleLine(m)
  {
  }

  lemma MarkedIsSingleLine(line: string)
    requires Marked(line).Some?
    ensures SingleLine(Trim(line)) && SingleLine(Trim(Marked(line).value))
  {
    MarkedLineIsLaidOut(line);
    var l := LayoutOf(line);
    MarkerIsSingleLine(l.marker);
    assert SingleLine(l.indent) && SingleLine(l.gap);
    TrimStaysSingleLine(line);
    TrimStaysSingleLine(Marked(line).value);
  }

  ghost predicate AllSingle(lines: seq<string>) {
    forall i :: 0 <= i < |lines| ==> SingleLine(lines[i])
  }

  /** Every line, its edges trimmed, is one line to the dot as well. */
  predicate AllTrimSingle(lines: seq<string>) {
    forall i :: 0 <= i < |lines| ==> SingleLine(Trim(lines[i]))
  }

  lemma AllTrimSingleFirst(lines: seq<string>)
    requires lines != []
    ensures AllTrimSingle(lines) <==> SingleLine(Trim(lines[0])) && AllTrimSingle(lines[1..])
  {
    var rest := lines[1..];
    if SingleLine(Trim(lines[0])) && AllTrimSingle(rest) {
      forall i | 0 <= i < |lines| ensures SingleLine(Trim(lines[i])) {
        if i > 0 { assert lines[i] == rest[i - 1]; }
      }
    }
  }

  lemma AllSingleOfClosed(cur: Option<string>, rest: seq<string>)
    requires cur.Some? ==> cur.value != "" && Trimmed(cur.value)
    ensures AllSingle(Closed(cur) + rest) <==> (cur.Some? ==> SingleLine(cur.value)) && AllSingle(rest)
  {
    if cur.Some? {
      var all := [cur.value] + rest;
      if AllSingle(all) {
        assert SingleLine(all[0]);
        forall i | 0 <= i < |rest| ensures SingleLine(rest[i]) { assert all[i + 1] == rest[i]; }
      }
    } else {
      assert Closed(cur) + rest == rest;
    }
  }

  lemma SingleLineSum(a: string, b: string)
    ensures SingleLine(a + " " + b) <==> SingleLine(a) && SingleLine(b)
  {
    var s := a + " " + b;
    assert forall i :: 0 <= i < |a| ==> s[i] == a[i];
    assert forall i :: 0 <= i < |b| ==> s[|a| + 1 + i] == b[i];
  }

  /** The items read have no line end inside exactly when the lines they are read from have none. */
  lemma {:induction false} ReadIsSingleIffLinesAre(lines: seq<string>, cur: Option<string>)
    requires cur.Some? ==> cur.value != "" && Trimmed(cur.value)
    ensures AllSingle(Read(lines, cur)) <==> (cur.Some? ==> SingleLine(cur.value)) && AllTrimSingle(lines)
  {
    if lines == [] {
      AllSingleOfClosed(cur, []);
      assert Closed(cur) + [] == Closed(cur);
    } else {
      AllTrimSingleFirst(lines);
      if Marked(lines[0]).Some? {
        var next := Some(Trim(Marked(lines[0]).value));
        MarkedIsSingleLine(lines[0]);
        MarkedIsVisible(lines[0]);
        ReadIsSingleIffLinesAre(lines[1..], next);
        AllSingleOfClosed(cur, Read(lines[1..], next));
      } else if Trim(lines[0]) == "" {
        ReadIsSingleIffLinesAre(lines[1..], None);
        AllSingleOfClosed(cur, Read(lines[1..], None));
      } else {
        if cur.Some? { SingleLineSum(cur.value, Trim(lines[0])); }
        ReadIsSingleIffLinesAre(lines[1..], Continued(cur, lines[0]));
      }
    }
  }

  /**
   * Reading, printing and reading again gives the first reading exactly when no line of the text,
   * its edges trimmed, holds another line end: for a text with a marked line, the lines it is cut
   * into; for a text without, the whole.
   */
  lemma {:induction false} ParsePrintParse(text: string)
    requires Trim(text) != ""
    ensures var items, lines := Acceptance(Written(text)), SplitLines(Trim(text));
            items != [] &&
            (Acceptance(Written(DashText(items))) == items <==>
             if HasMark(lines) then AllTrimSingle(lines) else SingleLine(Trim(text)))
  {
    var items, lines := Acceptance(Written(text)), SplitLines(Trim(text));
    PrintedReadingReadsBack(text);
    if HasMark(lines) {
      ReadIsSingleIffLinesAre(lines, None);
    } else {
      assert items == [Trim(text)];
    }
  }

  lemma JoinOfTwo(a: string, b: string)
    ensures Join([a, b], "\n") == a + "\n" + b
  {
    assert [a, b][1..] == [b];
  }

  lemma ReadOfTwo(line: string, item: string, more: string)
    requires Marked(line) == Some(item) && Sayable(item) && Marked(more).None? && more != "" && Trimmed(more)
    ensures Read([line, more], None) == [item + " " + more]
  {
    assert [line, more][1..] == [more] && [more][1..] == [];
    assert Read([more], Some(item)) == Read([], Some(item + " " + more)) == [item + " " + more];
    assert Read([line, more], None) == [] + Read([more], Some(item));
  }

  /** A marked line continued by one unmarked line is one item. */
  lemma {:induction false} TwoLinesOneItem(item: string, more: string)
    requires Sayable(item) && more != "" && Trimmed(more) && NoNewline(more) && Marked(more).None?
    ensures Acceptance(Written(DashLine(item) + "\n" + more)) == [item + " " + more]
  {
    var lines := [DashLine(item), more];
    DashLineShape(item);
    JoinOfTwo(DashLine(item), more);
    JoinOfTrimmed(lines);
    SplitOfJoin(lines, "\n");
    assert Marked(lines[0]) == Some(item);
    ReadOfTwo(lines[0], item, more);
  }

  /** The case that breaks it: a line separator inside a continuation line. */
  lemma {:induction false} LineSeparatorBreaksTheTrip()
    ensures var items := Acceptance(Written("- a\nb\U{2028}c"));
            items == ["a b\U{2028}c"] && Acceptance(Written(DashText(items))) != items
  {
    var more := "b\U{2028}c";
    assert DashLine("a") + "\n" + more == "- a\nb\U{2028}c";
    assert "a" + " " + more == "a b\U{2028}c";
    TwoLinesOneItem("a", more);
    var item := "a b\U{2028}c";
    assert Terminator(item[3]);
    BrokenDashDiffers([item], 0);
  }
}
