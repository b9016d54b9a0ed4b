/** Strings as the window sees them: white space, trimming, visible characters, decimals. */
module Text {

  datatype Option<+T> = None | Some(value: T)

  /** The characters `trim` removes; also the complement of `\S`. */
  predicate Space(c: char) {
    || '\t' <= c <= '\r'
    || c == ' ' || c == '\U{A0}' || c == '\U{1680}'
    || '\U{2000}' <= c <= '\U{200A}'
    || c == '\U{2028}' || c == '\U{2029}' || c == '\U{202F}'
    || c == '\U{205F}' || c == '\U{3000}' || c == '\U{FEFF}'
  }

  /** The characters a `.` never matches. */
  predicate Terminator(c: char) {
    c == '\n' || c == '\r' || c == '\U{2028}' || c == '\U{2029}'
  }

  predicate Digit(c: char) {
    '0' <= c <= '9'
  }

  predicate AllSpace(s: string) {
    forall i :: 0 <= i < |s| ==> Space(s[i])
  }

  predicate SingleLine(s: string) {
    forall i :: 0 <= i < |s| ==> !Terminator(s[i])
  }

  predicate Trimmed(s: string) {
    s == "" || (!Space(s[0]) && !Space(s[|s| - 1]))
  }

  function TrimStart(s: string): (r: string)
    ensures r == "" || !Space(r[0])
  {
    if s != "" && Space(s[0]) then TrimStart(s[1..]) else s
  }

  function TrimEnd(s: string): (r: string)
    ensures r == "" || !Space(r[|r| - 1])
    ensures |r| <= |s| && r == s[..|r|]
  {
    if s != "" && Space(s[|s| - 1]) then TrimEnd(s[..|s| - 1]) else s
  }

  function Trim(s: string): (r: string)
    ensures Trimmed(r)
    ensures Trimmed(s) ==> r == s
  {
    TrimEnd(TrimStart(s))
  }

  /** The visible characters, in order. */
  function Solid(s: string): (r: string) {
    if s == "" then "" else (if Space(s[0]) then "" else [s[0]]) + Solid(s[1..])
  }

  function Cat(ss: seq<string>): string {
    if ss == [] then "" else ss[0] + Cat(ss[1..])
  }

  /** `lines.join(sep)` of a list with something in it. */
  function Join(lines: seq<string>, sep: string): string
    requires lines != []
  {
    if |lines| == 1 then lines[0] else lines[0] + sep + Join(lines[1..], sep)
  }

  lemma Regroup(a: string, b: string, c: string)
    ensures a + b + c == a + (b + c)
  {
  }

  lemma {:induction false} SolidOfSum(a: string, b: string)
    ensures Solid(a + b) == Solid(a) + Solid(b)
  {
    if a == "" {
      assert a + b == b;
    } else {
      assert (a + b)[1..] == a[1..] + b;
      SolidOfSum(a[1..], b);
    }
  }

  lemma {:induction false} SolidOfSpace(s: string)
    requires AllSpace(s)
    ensures Solid(s) == ""
  {
    if s == "" {
    } else {
      SolidOfSpace(s[1..]);
    }
  }

  lemma {:induction false} CatOfSum(a: seq<string>, b: seq<string>)
    ensures Cat(a + b) == Cat(a) + Cat(b)
  {
    if a == [] {
      assert a + b == b;
    } else {
      assert (a + b)[1..] == a[1..] + b;
      CatOfSum(a[1..], b);
    }
  }

  lemma {:induction false} SolidOfTrimStart(s: string)
    ensures Solid(TrimStart(s)) == Solid(s)
  {
    if s != "" && Space(s[0]) { SolidOfTrimStart(s[1..]); }
  }

  lemma {:induction false} SolidOfTrimEnd(s: string)
    ensures Solid(TrimEnd(s)) == Solid(s)
  {
    if s != "" && Space(s[|s| - 1]) {
      var front, last := s[..|s| - 1], [s[|s| - 1]];
      SolidOfTrimEnd(front);
      assert s == front + last;
      SolidOfSum(front, last);
      SolidOfSpace(last);
    }
  }

  lemma SolidOfTrim(s: string)
    ensures Solid(Trim(s)) == Solid(s)
  {
    SolidOfTrimStart(s);
    SolidOfTrimEnd(TrimStart(s));
  }

  lemma {:induction false} SolidIsEmpty(s: string)
    ensures Solid(s) == "" <==> AllSpace(s)
  {
    if s == "" {
    } else {
      SolidIsEmpty(s[1..]);
      assert s == [s[0]] + s[1..];
      if AllSpace(s[1..]) && Space(s[0]) { assert AllSpace(s); }
    }
  }

  lemma TrimIsEmpty(s: string)
    ensures Trim(s) == "" <==> AllSpace(s)
  {
    SolidOfTrim(s);
    SolidIsEmpty(s);
    SolidIsEmpty(Trim(s));
  }

  /** White space in front of a trimmed text is exactly what trimming takes off. */
  lemma {:induction false} TrimOfIndented(a: string, s: string)
    requires AllSpace(a) && s != "" && Trimmed(s)
    ensures Trim(a + s) == s
  {
    if a == "" {
      assert a + s == s;
    } else {
      assert (a + s)[1..] == a[1..] + s;
      TrimOfIndented(a[1..], s);
    }
  }

  // ---------------------------------------------------------------- decimals

  function Dec(n: nat): (r: string)
    ensures r != "" && forall i :: 0 <= i < |r| ==> Digit(r[i])
  {
    var d := ['0' + (n % 10) as char];
    if n < 10 then d else Dec(n / 10) + d
  }

  function ReadDec(s: string): nat
    requires forall i :: 0 <= i < |s| ==> Digit(s[i])
  {
    if s == "" then 0 else
      assert Digit(s[|s| - 1]);
      10 * ReadDec(s[..|s| - 1]) + (s[|s| - 1] as int - '0' as int)
  }

  lemma {:induction false} ReadDecOfDec(n: nat)
    ensures ReadDec(Dec(n)) == n
  {
    var r := Dec(n);
    if n >= 10 {
      ReadDecOfDec(n / 10);
      assert r[..|r| - 1] == Dec(n / 10);
    } else {
      assert r[..|r| - 1] == "";
    }
  }

  lemma DecLength(n: nat)
    ensures |Dec(n)| <= 2 <==> n < 100
  {
  }

  lemma FrontAndLast<T>(xs: seq<T>)
    requires xs != []
    ensures xs[..|xs| - 1] + [xs[|xs| - 1]] == xs
  {
  }

  lemma {:induction false} DecHasNoLeadingZero(n: nat)
    ensures |Dec(n)| > 1 ==> Dec(n)[0] != '0'
    ensures Dec(0) == "0"
  {
    if n < 10 {
    } else {
      DecHasNoLeadingZero(n / 10);
      assert n < 100 ==> |Dec(n / 10)| == 1 && Dec(n / 10)[0] == '0' + (n / 10) as char;
    }
  }

  // ---------------------------------------------------------------- characters by their numbers

  lemma SpaceCodes(c: char)
    ensures Space(c) <==>
            || c as int in {0x09, 0x0A, 0x0B, 0x0C, 0x0D, 0x20, 0xA0, 0x1680}
            || 0x2000 <= c as int <= 0x200A
            || c as int in {0x2028, 0x2029, 0x202F, 0x205F, 0x3000, 0xFEFF}
    ensures Terminator(c) <==> c as int in {0x0A, 0x0D, 0x2028, 0x2029}
    ensures Digit(c) <==> 0x30 <= c as int <= 0x39
  {
  }
}
