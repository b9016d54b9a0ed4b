/** spa/src/shell/format.ts: the promise of a task, read as a list of items. */
module PromiseReader {
  import opened Text

  datatype Promise = Missing | Written(text: string) | Listed(items: seq<string>)

  // ------------------------------------------------- one line against PROMISE_BULLET

  predicate Gap(c: char) {
    c == ' ' || c == '\t'
  }

  predicate AllGap(s: string) {
    forall i :: 0 <= i < |s| ==> Gap(s[i])
  }

  predicate Bullet(c: char) {
    c == '-' || c == '\U{2013}' || c == '\U{2014}' || c == '*' || c == '\U{2022}'
  }

  predicate Closer(c: char) {
    c == '.' || c == ')'
  }

  lemma GapCodes(c: char)
    ensures Gap(c) <==> c as int == 0x20 || c as int == 0x09
  {
  }

  function SkipGap(s: string): (r: string)
    ensures |r| <= |s|
    ensures r == "" || !Gap(r[0])
  {
    if s != "" && Gap(s[0]) then SkipGap(s[1..]) else s
  }

  /**
   * How many characters of the front of `s` are a marker: a bullet, or one or two digits closed by
   * a dot or a bracket.
   */
  function MarkerLength(s: string): (n: nat)
    ensures n <= |s|
  {
    if |s| >= 1 && Bullet(s[0]) then 1
    else if |s| >= 2 && Digit(s[0]) && Closer(s[1]) then 2
    else if |s| >= 3 && Digit(s[0]) && Digit(s[1]) && Closer(s[2]) then 3
    else 0
  }

  predicate Marker(s: string) {
    s != "" && MarkerLength(s) == |s|
  }

  /**
   * The markers that are accepted, written out: a hyphen, the two dashes, an asterisk, a bullet, or
   * one or two digits closed by a dot or a bracket.
   */
  lemma AcceptedMarkers(m: string)
    ensures Marker(m) <==>
            || m in {"-", "\U{2013}", "\U{2014}", "*", "\U{2022}"}
            || (|m| == 2 && '0' <= m[0] <= '9' && m[1] in ".)")
            || (|m| == 3 && '0' <= m[0] <= '9' && '0' <= m[1] <= '9' && m[2] in ".)")
  {
    if |m| == 1 { assert m == [m[0]]; }
  }

  /** The captured text of a line that PROMISE_BULLET matches. */
  function Marked(line: string): (r: Option<string>)
    ensures r.Some? ==> r.value != "" && !Space(r.value[0]) && SingleLine(r.value)
    ensures r.Some? ==> |r.value| < |line|
  {
    var rest := SkipGap(line);
    var n := MarkerLength(rest);
    if n == 0 then None else
    var body := SkipGap(rest[n..]);
    if |body| < |rest[n..]| && body != "" && !Space(body[0]) && SingleLine(body) then Some(body) else None
  }

  predicate HasMark(lines: seq<string>) {
    exists i :: 0 <= i < |lines| && Marked(lines[i]).Some?
  }

  // ------------------------------------------------- lines, and the items they spell

  /** `text.split(/\r?\n/)`. */
  function SplitLines(s: string): (r: seq<string>)
    ensures r != []
  {
    if s == "" then [""]
    else if s[0] == '\n' then [""] + SplitLines(s[1..])
    else if |s| > 1 && s[0] == '\r' && s[1] == '\n' then [""] + SplitLines(s[2..])
    else
      var rest := SplitLines(s[1..]);
      [[s[0]] + rest[0]] + rest[1..]
  }

  function Closed(cur: Option<string>): seq<string> {
    if cur.None? || Trim(cur.value) == "" then [] else [Trim(cur.value)]
  }

  function Continued(cur: Option<string>, line: string): Option<string> {
    Some(if cur.None? then Trim(line) else cur.value + " " + Trim(line))
  }

  /** The items `lines` spell when the item `cur` is still open in front of them. */
  function Read(lines: seq<string>, cur: Option<string>): seq<string> {
    if lines == [] then Closed(cur)
    else if Marked(lines[0]).Some? then Closed(cur) + Read(lines[1..], Some(Trim(Marked(lines[0]).value)))
    else if Trim(lines[0]) == "" then Closed(cur) + Read(lines[1..], None)
    else Read(lines[1..], Continued(cur, lines[0]))
  }

  /** A line that is neither blank nor marked opens an item of its own, or goes on with the open one after a blank. */
  lemma UnmarkedLine(line: string, rest: seq<string>, open: string)
    requires Marked(line).None? && Trim(line) != ""
    ensures Read([line] + rest, None) == Read(rest, Some(Trim(line)))
    ensures Read([line] + rest, Some(open)) == Read(rest, Some(open + " " + Trim(line)))
  {
    assert ([line] + rest)[1..] == rest;
  }

  /** A blank line closes the open item, if there is anything in it. */
  lemma BlankLine(line: string, rest: seq<string>, open: string)
    requires Marked(line).None? && Trim(line) == ""
    ensures Read([line] + rest, None) == Read(rest, None)
    ensures Read([line] + rest, Some(open)) ==
            (if Trim(open) == "" then [] else [Trim(open)]) + Read(rest, None)
  {
    assert ([line] + rest)[1..] == rest;
  }

  /** `items.map(trim).filter(nonempty)`. */
  function Kept(items: seq<string>): seq<string> {
    if items == [] then [] else Closed(Some(items[0])) + Kept(items[1..])
  }

  /** What a promise says, with no fallback for a marked text that yields nothing: there is none. */
  function Acceptance(p: Promise): seq<string> {
    match p
    case Missing => []
    case Listed(items) => Kept(items)
    case Written(text) =>
      var one := Trim(text);
      if one == "" then [] else
      var lines := SplitLines(one);
      if HasMark(lines) then Read(lines, None) else [one]
  }

  // ------------------------------------------------- the reader itself

  lemma ReadOneMore(items: seq<string>, lines: seq<string>, i: nat, cur: Option<string>)
    requires i < |lines|
    ensures items + Read(lines[i..], cur) ==
            if Marked(lines[i]).Some? then
              items + Closed(cur) + Read(lines[i + 1..], Some(Trim(Marked(lines[i]).value)))
            else if Trim(lines[i]) == "" then items + Closed(cur) + Read(lines[i + 1..], None)
            else items + Read(lines[i + 1..], Continued(cur, lines[i]))
  {
    assert lines[i..][1..] == lines[i + 1..];
  }

  lemma MarkedIsVisible(line: string)
    requires Marked(line).Some?
    ensures Trim(Marked(line).value) != ""
  {
    TrimIsEmpty(Marked(line).value);
  }

  /** Trimming an open item never loses its visible part. */
  lemma ContinuedIsVisible(cur: Option<string>, line: string)
    requires Trim(line) != ""
    ensures Trim(Continued(cur, line).value) != ""
  {
    if cur.Some? {
      SolidOfSum(cur.value + " ", Trim(line));
      SolidOfTrim(Continued(cur, line).value);
      SolidIsEmpty(Trim(line));
      SolidIsEmpty(Trim(Continued(cur, line).value));
    }
  }

  lemma {:induction false} MarkedLinesYieldItems(lines: seq<string>, cur: Option<string>)
    requires HasMark(lines) || (cur.Some? && Trim(cur.value) != "")
    ensures Read(lines, cur) != []
  {
    if lines == [] {
    } else {
      if Marked(lines[0]).Some? {
        MarkedIsVisible(lines[0]);
        MarkedLinesYieldItems(lines[1..], Some(Trim(Marked(lines[0]).value)));
      } else {
        if HasMark(lines) {
          var i :| 0 <= i < |lines| && Marked(lines[i]).Some?;
          assert lines[1..][i - 1] == lines[i];
        }
        if Trim(lines[0]) == "" {
          if HasMark(lines) { MarkedLinesYieldItems(lines[1..], None); }
        } else {
          ContinuedIsVisible(cur, lines[0]);
          MarkedLinesYieldItems(lines[1..], Continued(cur, lines[0]));
        }
      }
    }
  }

  method AcceptanceList(p: Promise) returns (out: seq<string>)
    ensures out == Acceptance(p)
  {
    match p
    case Missing => out := [];
    case Listed(all) => out := Kept(all);
    case Written(text) =>
      var one := Trim(text);
      if |one| == 0 { return []; }
      var lines := SplitLines(one);
      if !HasMark(lines) { return [one]; }
      var items: seq<string> := [];
      var cur: Option<string> := None;
      for i := 0 to |lines|
        invariant items + Read(lines[i..], cur) == Read(lines, None)
      {
        ReadOneMore(items, lines, i, cur);
        var marked := Marked(lines[i]);
        if marked.Some? {
          items := items + Closed(cur);
          cur := Some(Trim(marked.value));
        } else if |Trim(lines[i])| == 0 {
          items := items + Closed(cur);
          cur := None;
        } else {
          cur := Continued(cur, lines[i]);
        }
      }
      items := items + Closed(cur);
      MarkedLinesYieldItems(lines, None);
      return if |items| > 0 then items else [one];
  }

  // ------------------------------------------------- the fallback branch is dead

  // ------------------------------------------------- items are clean

  predicate Clean(items: seq<string>) {
    forall i :: 0 <= i < |items| ==> items[i] != "" && Trimmed(items[i])
  }

  lemma {:induction false} ReadIsClean(lines: seq<string>, cur: Option<string>)
    ensures Clean(Read(lines, cur))
  {
    if lines == [] {
    } else {
      if Marked(lines[0]).Some? {
        ReadIsClean(lines[1..], Some(Trim(Marked(lines[0]).value)));
      } else if Trim(lines[0]) == "" {
        ReadIsClean(lines[1..], None);
      } else {
        ReadIsClean(lines[1..], Continued(cur, lines[0]));
      }
    }
  }

  lemma {:induction false} KeptIsClean(items: seq<string>)
    ensures Clean(Kept(items))
    ensures Clean(items) ==> Kept(items) == items
  {
    if items == [] {
    } else {
      KeptIsClean(items[1..]);
      if Clean(items) {
        assert Clean(items[1..]) by {
          forall i | 0 <= i < |items[1..]| ensures items[1..][i] != "" && Trimmed(items[1..][i]) {
            assert items[1..][i] == items[i + 1];
          }
        }
      }
    }
  }

  /**
   * Whatever was promised, every item shown is trimmed and says something, and reading the result
   * as a list changes nothing.
   */
  lemma ItemsAreClean(p: Promise)
    ensures Clean(Acceptance(p))
    ensures Acceptance(Listed(Acceptance(p))) == Acceptance(p)
  {
    match p {
      case Missing =>
      case Listed(items) => KeptIsClean(items);
      case Written(text) =>
        if Trim(text) != "" { ReadIsClean(SplitLines(Trim(text)), None); }
    }
    KeptIsClean(Acceptance(p));
  }
}
