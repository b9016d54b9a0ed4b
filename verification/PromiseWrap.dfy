/** A marked item that is hard-wrapped over several lines is still the same item. */
module PromiseWrap {
  import opened Text
  import opened PromiseReader
  import opened PromiseRoundTrip

  predicate Continues(line: string) {
    line != "" && !Space(line[0]) && SingleLine(line) && Marked(line).None?
  }

  /**
   * A marked item broken into lines at single blanks: the first keeps the marker, the others are
   * neither blank nor marked; where the item ends there may be blanks.
   */
  predicate Wrapped(pieces: seq<string>) {
    && pieces != [] && Marked(pieces[0]).Some?
    && (forall i :: 1 <= i < |pieces| ==> Continues(pieces[i]))
    && (forall i :: 0 <= i < |pieces| - 1 ==> !Space(pieces[i][|pieces[i]| - 1]))
  }

  /** The same without blanks at the end of the item. */
  predicate Tidy(pieces: seq<string>) {
    && pieces != []
    && Marked(pieces[0]).Some? && !Space(pieces[0][|pieces[0]| - 1])
    && forall i :: 1 <= i < |pieces| ==> Sayable(pieces[i]) && Marked(pieces[i]).None?
  }

  // ------------------------------------------------- the unbroken line

  lemma {:induction false} SkipGapExtends(s: string, tail: string)
    requires SkipGap(s) != ""
    ensures SkipGap(s + tail) == SkipGap(s) + tail
    ensures SkipGap(s) == s[|s| - |SkipGap(s)|..]
  {
    if Gap(s[0]) {
      assert (s + tail)[1..] == s[1..] + tail;
      SkipGapExtends(s[1..], tail);
    }
  }

  lemma MarkerExtends(s: string, tail: string)
    requires MarkerLength(s) > 0
    ensures MarkerLength(s + tail) == MarkerLength(s)
    ensures (s + tail)[MarkerLength(s)..] == s[MarkerLength(s)..] + tail
  {
  }

  lemma MarkedExtends(line: string, tail: string)
    requires Marked(line).Some? && SingleLine(tail)
    ensures Marked(line + tail) == Some(Marked(line).value + tail)
  {
    var rest := SkipGap(line);
    var n := MarkerLength(rest);
    SkipGapExtends(line, tail);
    MarkerExtends(rest, tail);
    SkipGapExtends(rest[n..], tail);
    var body := SkipGap(rest[n..]);
    assert (body + tail)[0] == body[0] && SingleLine(body + tail);
  }

  /** What a mark captures ends where its line ends. */
  lemma MarkedEndsItsLine(line: string)
    requires Marked(line).Some?
    ensures Marked(line).value[|Marked(line).value| - 1] == line[|line| - 1]
  {
    var rest := SkipGap(line);
    SkipGapExtends(line, "");
    SkipGapExtends(rest[MarkerLength(rest)..], "");
  }

  lemma SayableSum(a: string, b: string)
    requires Sayable(a) && Sayable(b)
    ensures Sayable(a + " " + b)
  {
    var s := a + " " + b;
    assert s[0] == a[0] && s[|s| - 1] == b[|b| - 1];
  }

  lemma {:induction false} JoinIsSayable(head: string, rest: seq<string>)
    requires Sayable(head) && forall i :: 0 <= i < |rest| ==> Sayable(rest[i])
    ensures Sayable(Join([head] + rest, " "))
    decreases |rest|
  {
    var all := [head] + rest;
    assert all[1..] == rest;
    if rest == [] {
    } else {
      assert Sayable(rest[0]);
      forall i | 0 <= i < |rest[1..]| ensures Sayable(rest[1..][i]) { assert rest[1..][i] == rest[i + 1]; }
      assert [rest[0]] + rest[1..] == rest;
      JoinIsSayable(rest[0], rest[1..]);
      SayableSum(head, Join(rest, " "));
    }
  }

  lemma HeadIsSayable(pieces: seq<string>)
    requires Tidy(pieces)
    ensures Sayable(Marked(pieces[0]).value)
  {
    MarkedEndsItsLine(pieces[0]);
  }

  lemma RestIsSayable(pieces: seq<string>)
    requires Tidy(pieces) && |pieces| > 1
    ensures Sayable(Join(pieces[1..], " "))
  {
    var rest := pieces[1..];
    var more := rest[1..];
    assert Sayable(pieces[1]);
    forall i | 0 <= i < |more| ensures Sayable(more[i]) { assert more[i] == pieces[i + 2]; }
    assert [rest[0]] + more == rest;
    JoinIsSayable(rest[0], more);
  }

  lemma JoinOfHead(head: string, rest: seq<string>)
    requires rest != []
    ensures Join([head] + rest, " ") == head + (" " + Join(rest, " "))
  {
    JoinCons(head, rest, " ");
  }

  lemma FrontOfSum(a: seq<string>, b: seq<string>)
    requires a != []
    ensures a + b == [a[0]] + (a[1..] + b)
  {
  }

  lemma {:induction false} WholeIsMarked(pieces: seq<string>)
    requires Tidy(pieces)
    ensures Marked(Join(pieces, " ")) == Some(Join([Marked(pieces[0]).value] + pieces[1..], " "))
  {
    if |pieces| == 1 {
      assert pieces[1..] == [];
    } else {
      RestIsSayable(pieces);
      FrontOfSum(pieces, []);
      assert pieces[1..] + [] == pieces[1..] && pieces + [] == pieces;
      JoinOfHead(pieces[0], pieces[1..]);
      JoinOfHead(Marked(pieces[0]).value, pieces[1..]);
      MarkedExtends(pieces[0], " " + Join(pieces[1..], " "));
    }
  }

  // ------------------------------------------------- reading the broken lines

  lemma JoinRegroups(cur: string, rest: seq<string>)
    requires rest != []
    ensures Join([cur + " " + rest[0]] + rest[1..], " ") == Join([cur] + rest, " ")
  {
    JoinCons(cur, rest, " ");
    JoinOfIndented(cur + " ", rest[0], rest[1..], " ");
    FrontOfSum(rest, []);
    assert rest[1..] + [] == rest[1..] && rest + [] == rest;
  }

  lemma {:induction false} ReadContinues(cur: string, rest: seq<string>, post: seq<string>)
    requires forall i :: 0 <= i < |rest| ==> Sayable(rest[i]) && Marked(rest[i]).None?
    ensures Read(rest + post, Some(cur)) == Read(post, Some(Join([cur] + rest, " ")))
    decreases |rest|
  {
    if rest == [] {
      assert rest + post == post && [cur] + rest == [cur];
    } else {
      assert Sayable(rest[0]) && Marked(rest[0]).None?;
      forall i | 0 <= i < |rest[1..]| ensures Sayable(rest[1..][i]) && Marked(rest[1..][i]).None? {
        assert rest[1..][i] == rest[i + 1];
      }
      assert (rest + post)[1..] == rest[1..] + post;
      ReadContinues(cur + " " + rest[0], rest[1..], post);
      JoinRegroups(cur, rest);
    }
  }

  lemma {:induction false} ReadAfter(pre: seq<string>, a: seq<string>, b: seq<string>, cur: Option<string>)
    requires forall c :: Read(a, c) == Read(b, c)
    ensures Read(pre + a, cur) == Read(pre + b, cur)
  {
    if pre == [] {
      assert pre + a == a && pre + b == b;
    } else {
      assert (pre + a)[1..] == pre[1..] + a && (pre + b)[1..] == pre[1..] + b;
      ReadAfter(pre[1..], a, b, Some(Trim(if Marked(pre[0]).Some? then Marked(pre[0]).value else "")));
      ReadAfter(pre[1..], a, b, None);
      ReadAfter(pre[1..], a, b, Continued(cur, pre[0]));
    }
  }

  lemma ReadMarkedLine(line: string, rest: seq<string>, cur: Option<string>)
    requires Marked(line).Some? && Sayable(Marked(line).value)
    ensures Read([line] + rest, cur) == Closed(cur) + Read(rest, Marked(line))
  {
    assert ([line] + rest)[1..] == rest;
  }

  lemma ReadMarkedThenMore(line: string, rest: seq<string>, post: seq<string>, cur: Option<string>)
    requires Marked(line).Some? && Sayable(Marked(line).value)
    requires forall i :: 0 <= i < |rest| ==> Sayable(rest[i]) && Marked(rest[i]).None?
    ensures Read([line] + (rest + post), cur) ==
            Closed(cur) + Read(post, Some(Join([Marked(line).value] + rest, " ")))
  {
    ReadMarkedLine(line, rest + post, cur);
    ReadContinues(Marked(line).value, rest, post);
  }

  lemma ReadBroken(pieces: seq<string>, post: seq<string>, cur: Option<string>)
    requires Tidy(pieces)
    ensures Read(pieces + post, cur) ==
            Closed(cur) + Read(post, Some(Join([Marked(pieces[0]).value] + pieces[1..], " ")))
  {
    var body, rest := Marked(pieces[0]).value, pieces[1..];
    HeadIsSayable(pieces);
    forall i | 0 <= i < |rest| ensures Sayable(rest[i]) && Marked(rest[i]).None? { assert rest[i] == pieces[i + 1]; }
    ReadMarkedThenMore(pieces[0], rest, post, cur);
    FrontOfSum(pieces, post);
  }

  lemma {:induction false} ReadUnbroken(pieces: seq<string>, post: seq<string>, cur: Option<string>)
    requires Tidy(pieces)
    ensures Read([Join(pieces, " ")] + post, cur) ==
            Closed(cur) + Read(post, Some(Join([Marked(pieces[0]).value] + pieces[1..], " ")))
  {
    var body, rest := Marked(pieces[0]).value, pieces[1..];
    HeadIsSayable(pieces);
    forall i | 0 <= i < |rest| ensures Sayable(rest[i]) { assert rest[i] == pieces[i + 1]; }
    JoinIsSayable(body, rest);
    WholeIsMarked(pieces);
    ReadMarkedLine(Join(pieces, " "), post, cur);
  }

  lemma {:induction false} ReadTidy(pieces: seq<string>, post: seq<string>, cur: Option<string>)
    requires Tidy(pieces)
    ensures Read(pieces + post, cur) == Read([Join(pieces, " ")] + post, cur)
  {
    ReadBroken(pieces, post, cur);
    ReadUnbroken(pieces, post, cur);
  }

  // ------------------------------------------------- blanks where the item ends

  lemma {:induction false} TrimEndCuts(s: string)
    ensures AllSpace(s[|TrimEnd(s)|..])
  {
    if s != "" && Space(s[|s| - 1]) {
      var front := s[..|s| - 1];
      TrimEndCuts(front);
      var r := TrimEnd(s);
      forall i | |r| <= i < |s| ensures Space(s[i]) {
        if i < |s| - 1 { assert front[|r|..][i - |r|] == s[i]; }
      }
    }
  }

  lemma {:induction false} TrimEndOfPadded(s: string, tail: string)
    requires AllSpace(tail)
    ensures TrimEnd(s + tail) == TrimEnd(s)
  {
    if tail == "" {
      assert s + tail == s;
    } else {
      var front := tail[..|tail| - 1];
      assert (s + tail)[..|s + tail| - 1] == s + front;
      TrimEndOfPadded(s, front);
    }
  }

  lemma {:induction false} TrimStartOfPadded(head: string, s: string)
    requires AllSpace(head)
    ensures TrimStart(head + s) == TrimStart(s)
  {
    if head == "" {
      assert head + s == s;
    } else {
      assert (head + s)[1..] == head[1..] + s;
      TrimStartOfPadded(head[1..], s);
    }
  }

  lemma TrimOfPadded(head: string, s: string, tail: string)
    requires AllSpace(head) && AllSpace(tail) && s != "" && Trimmed(s)
    ensures Trim(head + (s + tail)) == s
  {
    TrimStartOfPadded(head, s + tail);
    assert (s + tail)[0] == s[0];
    TrimEndOfPadded(s, tail);
  }

  /** The pieces without the blanks the last one ends in. */
  function Tidied(pieces: seq<string>): seq<string>
    requires pieces != []
  {
    pieces[..|pieces| - 1] + [TrimEnd(pieces[|pieces| - 1])]
  }

  function EndBlanks(line: string): string {
    line[|TrimEnd(line)|..]
  }

  lemma EndIsCut(line: string)
    requires Continues(line)
    ensures Sayable(TrimEnd(line)) && Trim(line) == TrimEnd(line) && Marked(TrimEnd(line)).None?
    ensures line == TrimEnd(line) + EndBlanks(line) && AllSpace(EndBlanks(line)) && SingleLine(EndBlanks(line))
  {
    TrimEndCuts(line);
    var cut, blanks := TrimEnd(line), EndBlanks(line);
    assert TrimStart(line) == line;
    assert line == cut + blanks;
    if Marked(cut).Some? { MarkedExtends(cut, blanks); }
  }

  lemma TidiedIsTidy(pieces: seq<string>)
    requires Wrapped(pieces) && |pieces| > 1
    ensures Tidy(Tidied(pieces)) && Tidied(pieces)[0] == pieces[0]
  {
    var last := |pieces| - 1;
    EndIsCut(pieces[last]);
    forall i | 1 <= i < |pieces| ensures Sayable(Tidied(pieces)[i]) && Marked(Tidied(pieces)[i]).None? {
      if i < last { assert Continues(pieces[i]); }
    }
  }

  /** Lines that are neither marked nor differ inside are read alike. */
  lemma ReadSameLine(a: string, b: string, post: seq<string>, cur: Option<string>)
    requires Marked(a).None? && Marked(b).None? && Trim(a) == Trim(b) && Trim(a) != ""
    ensures Read([a] + post, cur) == Read([b] + post, cur)
  {
    assert ([a] + post)[1..] == post && ([b] + post)[1..] == post;
  }

  lemma LastApart(pieces: seq<string>, post: seq<string>)
    requires pieces != []
    ensures pieces + post == pieces[..|pieces| - 1] + ([pieces[|pieces| - 1]] + post)
    ensures Tidied(pieces) + post == pieces[..|pieces| - 1] + ([TrimEnd(pieces[|pieces| - 1])] + post)
  {
  }

  lemma ReadTidied(pieces: seq<string>, post: seq<string>, cur: Option<string>)
    requires Wrapped(pieces) && |pieces| > 1
    ensures Read(pieces + post, cur) == Read(Tidied(pieces) + post, cur)
  {
    var front, last := pieces[..|pieces| - 1], pieces[|pieces| - 1];
    assert Continues(last);
    EndIsCut(last);
    forall c ensures Read([last] + post, c) == Read([TrimEnd(last)] + post, c) {
      ReadSameLine(last, TrimEnd(last), post, c);
    }
    hide Read;
    ReadAfter(front, [last] + post, [TrimEnd(last)] + post, cur);
    LastApart(pieces, post);
  }

  lemma {:induction false} JoinOfTidied(pieces: seq<string>)
    requires pieces != []
    ensures Join(pieces, " ") == Join(Tidied(pieces), " ") + EndBlanks(pieces[|pieces| - 1])
  {
    if |pieces| > 1 {
      var rest := pieces[1..];
      JoinOfTidied(rest);
      assert Tidied(pieces)[1..] == Tidied(rest);
      Regroup(pieces[0] + " ", Join(Tidied(rest), " "), EndBlanks(pieces[|pieces| - 1]));
    } else {
      assert TrimEnd(pieces[0]) == pieces[0][..|TrimEnd(pieces[0])|];
    }
  }

  lemma WholeTidied(pieces: seq<string>)
    requires Wrapped(pieces) && |pieces| > 1
    ensures var whole, tidy := Join(pieces, " "), Join(Tidied(pieces), " ");
            && Marked(whole).Some? && Marked(tidy).Some?
            && Trim(Marked(whole).value) == Trim(Marked(tidy).value)
  {
    var tail := EndBlanks(pieces[|pieces| - 1]);
    TidiedIsTidy(pieces);
    WholeIsMarked(Tidied(pieces));
    HeadIsSayable(Tidied(pieces));
    var body, rest := Marked(pieces[0]).value, Tidied(pieces)[1..];
    forall i | 0 <= i < |rest| ensures Sayable(rest[i]) { assert rest[i] == Tidied(pieces)[i + 1]; }
    JoinIsSayable(body, rest);
    EndIsCut(pieces[|pieces| - 1]);
    JoinOfTidied(pieces);
    MarkedExtends(Join(Tidied(pieces), " "), tail);
    var said := Marked(Join(Tidied(pieces), " ")).value;
    TrimOfPadded("", said, tail);
    assert "" + (said + tail) == said + tail;
  }

  lemma ReadSameMark(a: string, b: string, post: seq<string>, cur: Option<string>)
    requires Marked(a).Some? && Marked(b).Some? && Trim(Marked(a).value) == Trim(Marked(b).value)
    ensures Read([a] + post, cur) == Read([b] + post, cur)
  {
    assert ([a] + post)[1..] == post && ([b] + post)[1..] == post;
  }

  lemma ReadWrapped(pieces: seq<string>, post: seq<string>, cur: Option<string>)
    requires Wrapped(pieces)
    ensures Read(pieces + post, cur) == Read([Join(pieces, " ")] + post, cur)
  {
    if |pieces| == 1 {
      assert [Join(pieces, " ")] == pieces;
    } else {
      TidiedIsTidy(pieces);
      ReadTidied(pieces, post, cur);
      ReadTidy(Tidied(pieces), post, cur);
      WholeTidied(pieces);
      ReadSameMark(Join(Tidied(pieces), " "), Join(pieces, " "), post, cur);
    }
  }

  /** Line by line: whatever stands before and after, breaking a marked item changes nothing. */
  lemma WrappingChangesNoItem(pre: seq<string>, pieces: seq<string>, post: seq<string>, cur: Option<string>)
    requires Wrapped(pieces)
    ensures Read(pre + (pieces + post), cur) == Read(pre + ([Join(pieces, " ")] + post), cur)
  {
    forall c ensures Read(pieces + post, c) == Read([Join(pieces, " ")] + post, c) {
      ReadWrapped(pieces, post, c);
    }
    ReadAfter(pre, pieces + post, [Join(pieces, " ")] + post, cur);
  }

  // ------------------------------------------------- the same on the whole text

  predicate Edges(lines: seq<string>) {
    && lines != []
    && lines[0] != "" && !Space(lines[0][0])
    && var last := lines[|lines| - 1]; last != "" && !Space(last[|last| - 1])
  }

  lemma {:induction false} ReadsItsLines(head: string, lines: seq<string>, sep: string, tail: string)
    requires Edges(lines) && HasMark(lines) && LineEnd(sep) && AllSpace(head) && AllSpace(tail)
    requires forall i :: 0 <= i < |lines| ==> Flat(lines[i])
    ensures Acceptance(Written(head + (Join(lines, sep) + tail))) == Read(lines, None)
  {
    JoinEnds(lines, sep);
    TrimOfPadded(head, Join(lines, sep), tail);
    SplitOfJoin(lines, sep);
  }

  lemma {:induction false} JoinIsSingleLine(lines: seq<string>)
    requires lines != [] && forall i :: 0 <= i < |lines| ==> SingleLine(lines[i])
    ensures SingleLine(Join(lines, " "))
  {
    if |lines| > 1 {
      var rest := lines[1..];
      forall i | 0 <= i < |rest| ensures SingleLine(rest[i]) { assert rest[i] == lines[i + 1]; }
      JoinIsSingleLine(rest);
      assert SingleLine(lines[0]);
    }
  }

  lemma LastIsSaid(pieces: seq<string>)
    requires Wrapped(pieces)
    ensures pieces[0] != "" && pieces[|pieces| - 1] != ""
  {
    if |pieces| > 1 { assert Continues(pieces[|pieces| - 1]); }
  }

  lemma FlatSum(a: string, b: string)
    requires Flat(a) && SingleLine(b)
    ensures Flat(a + b)
  {
  }

  lemma WholeIsFlat(pieces: seq<string>)
    requires Wrapped(pieces) && Flat(pieces[0])
    ensures var whole := Join(pieces, " ");
            && Flat(whole) && whole != "" && whole[0] == pieces[0][0]
            && whole[|whole| - 1] == pieces[|pieces| - 1][|pieces[|pieces| - 1]| - 1]
  {
    if |pieces| > 1 {
      var rest := pieces[1..];
      forall i | 0 <= i < |rest| ensures SingleLine(rest[i]) { assert Continues(pieces[i + 1]); }
      JoinIsSingleLine(rest);
      FrontOfSum(pieces, []);
      assert rest + [] == rest && pieces + [] == pieces;
      JoinOfHead(pieces[0], rest);
      FlatSum(pieces[0], " " + Join(rest, " "));
    }
    LastIsSaid(pieces);
    JoinEnds(pieces, " ");
  }

  lemma OthersStayFlat(pre: seq<string>, pieces: seq<string>, post: seq<string>, whole: string)
    requires pieces != [] && Flat(whole)
    requires forall i :: 0 <= i < |pre + (pieces + post)| ==> Flat((pre + (pieces + post))[i])
    ensures forall i :: 0 <= i < |pre + ([whole] + post)| ==> Flat((pre + ([whole] + post))[i])
  {
    var broken, one := pre + (pieces + post), pre + ([whole] + post);
    forall i | 0 <= i < |one| ensures Flat(one[i]) {
      if i < |pre| { assert one[i] == broken[i]; }
      else if i > |pre| { assert one[i] == broken[i + |pieces| - 1]; }
    }
  }

  lemma EdgesStay(pre: seq<string>, pieces: seq<string>, post: seq<string>, whole: string)
    requires pieces != [] && Edges(pre + (pieces + post)) && whole != ""
    requires pieces[0] != "" && whole[0] == pieces[0][0]
    requires var last := pieces[|pieces| - 1]; last != "" && whole[|whole| - 1] == last[|last| - 1]
    ensures Edges(pre + ([whole] + post))
  {
    var broken, one := pre + (pieces + post), pre + ([whole] + post);
    assert one[0] == if pre == [] then whole else broken[0];
    assert post == [] ==> broken[|broken| - 1] == pieces[|pieces| - 1];
    assert one[|one| - 1] == if post == [] then whole else broken[|broken| - 1];
  }

  lemma UnbrokenIsReadable(pre: seq<string>, pieces: seq<string>, post: seq<string>)
    requires Wrapped(pieces) && Edges(pre + (pieces + post))
    requires forall i :: 0 <= i < |pre + (pieces + post)| ==> Flat((pre + (pieces + post))[i])
    ensures var one := pre + ([Join(pieces, " ")] + post);
            Edges(one) && forall i :: 0 <= i < |one| ==> Flat(one[i])
  {
    var broken, whole := pre + (pieces + post), Join(pieces, " ");
    assert broken[|pre|] == pieces[0];
    WholeIsFlat(pieces);
    OthersStayFlat(pre, pieces, post, whole);
    LastIsSaid(pieces);
    EdgesStay(pre, pieces, post, whole);
  }

  /**
   * Hard-wrap invariance: a text with a marked item on one line, and the text in which that
   * item is broken at any number of single spaces onto lines that are neither blank nor
   * marked, promise the same list, with either line ending and any blanks around the text.
   */
  lemma {:induction false} HardWrapInvariance(
      head: string, pre: seq<string>, pieces: seq<string>, post: seq<string>, sep: string, tail: string)
    requires Wrapped(pieces) && Edges(pre + (pieces + post))
    requires LineEnd(sep) && AllSpace(head) && AllSpace(tail)
    requires forall i :: 0 <= i < |pre + (pieces + post)| ==> Flat((pre + (pieces + post))[i])
    ensures Acceptance(Written(head + (Join(pre + (pieces + post), sep) + tail))) ==
            Acceptance(Written(head + (Join(pre + ([Join(pieces, " ")] + post), sep) + tail)))
  {
    var whole := Join(pieces, " ");
    var broken, one := pre + (pieces + post), pre + ([whole] + post);
    if |pieces| > 1 { WholeTidied(pieces); }
    assert Marked(broken[|pre|]).Some? && Marked(one[|pre|]).Some?;
    UnbrokenIsReadable(pre, pieces, post);
    ReadsItsLines(head, broken, sep, tail);
    ReadsItsLines(head, one, sep, tail);
    WrappingChangesNoItem(pre, pieces, post, None);
  }
}
