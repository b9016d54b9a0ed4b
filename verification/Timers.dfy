/** spa/src/shell/live-timer.ts and spa/src/shell/stats.ts: one interval, said by two printers. */
module Timers {
  import opened Text

  function Max0(n: int): nat {
    if n < 0 then 0 else n
  }

  function Clock(h: nat, m: nat, x: nat): string {
    var tail := Dec(x) + " с";
    var middle := if h > 0 || m > 0 then Dec(m) + (" м " + tail) else tail;
    if h > 0 then Dec(h) + (" ч " + middle) else middle
  }

  /** The words of a whole number of seconds: hours and minutes only when there are any, seconds always. */
  function SecondsWords(n: nat): string {
    Clock(n / 3600, n % 3600 / 60, n % 60)
  }

  function DurationWords(seconds: real): string {
    SecondsWords(Max0(seconds.Floor))
  }

  /** A moment as the doors give it: missing, a number, or a string with what the date parser makes of it. */
  datatype Moment = Missing | NotFinite | Number(ms: real) | Written(text: string, parsed: Option<real>)

  function MomentMs(value: Moment): Option<real> {
    match value
    case Missing => None
    case NotFinite => None
    case Number(ms) => Some(ms)
    case Written(text, parsed) => if Trim(text) == "" then None else parsed
  }

  datatype TimerState = Running | WaitingForYou | Failed | Idle

  datatype Chip = Chip(state: TimerState, spinning: bool, word: string, text: string, seconds: nat)

  function WordOf(state: TimerState): string {
    match state
    case Running => "идёт"
    case WaitingForYou => "ждёт вас"
    case Failed => "встала"
    case Idle => ""
  }

  /** Whole seconds between two moments; a moment from the future counts as none. */
  function SecondsBetween(start: real, now: real): nat {
    Max0(((now - start) / 1000.0).Floor)
  }

  /** `now` is absent when the clock gives no finite number. */
  function TimerChip(state: TimerState, since: Moment, now: Option<real>): Option<Chip> {
    if state.Idle? then None
    else if MomentMs(since).None? || now.None? then None
    else
      var seconds := SecondsBetween(MomentMs(since).value, now.value);
      Some(Chip(state, state.Running?, WordOf(state), WordOf(state) + " " + DurationWords(seconds as real), seconds))
  }

  const UNDER_A_MINUTE: string := "меньше минуты"

  function ShortClock(h: nat, m: nat): string {
    if h == 0 then Dec(m) + " м"
    else if m > 0 then Dec(h) + (" ч " + (Dec(m) + " м"))
    else Dec(h) + " ч"
  }

  function MinutesWords(minutes: nat): string {
    if minutes < 1 then UNDER_A_MINUTE else ShortClock(minutes / 60, minutes % 60)
  }

  lemma FloorIsNatural(x: real)
    requires x >= 0.0
    ensures x.Floor >= 0
  {
  }

  function ElapsedLabel(start: Option<real>, now: real): Option<string> {
    if start.None? then None else
    var ms := now - start.value;
    if ms < 0.0 then None else
    var minutes := (ms / 60000.0).Floor;
    FloorIsNatural(ms / 60000.0);
    Some(MinutesWords(minutes))
  }

  const WORDS_AFTER_MS: real := 2400.0

  function WaitingWords(what: string, elapsedMs: Option<real>): (bool, string) {
    var ms := if elapsedMs.None? || elapsedMs.value < 0.0 then 0.0 else elapsedMs.value;
    (ms >= WORDS_AFTER_MS, what + "… идёт " + DurationWords(ms / 1000.0))
  }

  // ------------------------------------------------- reading the words back

  function DigitsIn(s: string): (n: nat)
    ensures n <= |s| && forall i :: 0 <= i < n ==> Digit(s[i])
  {
    if s != "" && Digit(s[0]) then 1 + DigitsIn(s[1..]) else 0
  }

  predicate KnownUnit(c: char) {
    c == 'ч' || c == 'м' || c == 'с'
  }

  /** A number and the unit said after it. */
  datatype Part = Part(n: nat, unit: char)

  function ReadPartsFrom(n: nat, s: string): Option<seq<Part>>
    decreases |s|
  {
    if |s| < 2 || s[0] != ' ' || !KnownUnit(s[1]) then None
    else if |s| == 2 then Some([Part(n, s[1])])
    else if s[2] != ' ' then None
    else
      var more := s[3..];
      var k := DigitsIn(more);
      if k == 0 then None else
      match ReadPartsFrom(ReadDec(more[..k]), more[k..])
      case None => None
      case Some(rest) => Some([Part(n, s[1])] + rest)
  }

  /** Reads numbers with their units, one after another, a single blank between any two words. */
  function ReadParts(s: string): Option<seq<Part>> {
    var k := DigitsIn(s);
    if k == 0 then None else ReadPartsFrom(ReadDec(s[..k]), s[k..])
  }

  function InSeconds(p: Part): nat {
    if p.unit == 'ч' then 3600 * p.n else if p.unit == 'м' then 60 * p.n else p.n
  }

  function Total(parts: seq<Part>): nat {
    if parts == [] then 0 else InSeconds(parts[0]) + Total(parts[1..])
  }

  /** The units in the order they are said. */
  function UnitsSaid(parts: seq<Part>): string {
    seq(|parts|, i requires 0 <= i < |parts| => parts[i].unit)
  }

  /**
   * The parts are a clock's reading of `n` seconds: hours are said exactly from an hour on, minutes
   * exactly from a minute on, seconds always, in this order; minutes and seconds stay below sixty.
   */
  predicate ReadsAsClock(parts: seq<Part>, n: nat) {
    && UnitsSaid(parts) == (if n < 60 then "с" else if n < 3600 then "мс" else "чмс")
    && (forall i :: 0 <= i < |parts| && parts[i].unit != 'ч' ==> parts[i].n < 60)
    && Total(parts) == n
  }

  /**
   * The parts are the same reading without the seconds: hours exactly from an hour on, minutes
   * unless there are none beside the hours, and nothing that is zero.
   */
  predicate ReadsAsLabel(parts: seq<Part>, n: nat) {
    && UnitsSaid(parts) == (if n < 3600 then "м" else if n % 3600 < 60 then "ч" else "чм")
    && (forall i :: 0 <= i < |parts| ==> parts[i].n > 0 && (parts[i].unit != 'ч' ==> parts[i].n < 60))
    && Total(parts) == n - n % 60
  }

  /** What a text says as a clock, when it can be read at all. */
  predicate SaysClock(s: string, n: nat) {
    ReadParts(s).Some? && ReadsAsClock(ReadParts(s).value, n)
  }

  predicate SaysLabel(s: string, n: nat) {
    ReadParts(s).Some? && ReadsAsLabel(ReadParts(s).value, n)
  }

  lemma {:induction false} DigitsOver(d: string, rest: string)
    requires forall i :: 0 <= i < |d| ==> Digit(d[i])
    requires rest != "" && !Digit(rest[0])
    ensures DigitsIn(d + rest) == |d|
  {
    if d == "" {
      assert d + rest == rest;
    } else {
      assert (d + rest)[1..] == d[1..] + rest;
      DigitsOver(d[1..], rest);
    }
  }

  lemma {:induction false} ReadNumber(n: nat, tail: string)
    requires tail != "" && !Digit(tail[0])
    ensures ReadParts(Dec(n) + tail) == ReadPartsFrom(n, tail)
  {
    var s, k := Dec(n) + tail, |Dec(n)|;
    DigitsOver(Dec(n), tail);
    ReadDecOfDec(n);
    assert s[..k] == Dec(n) && s[k..] == tail;
  }

  /** A unit as it is printed after its number, with or without a blank behind it. */
  predicate UnitText(s: string) {
    2 <= |s| <= 3 && s[0] == ' ' && KnownUnit(s[1]) && (|s| == 3 ==> s[2] == ' ')
  }

  lemma {:induction false} ReadLast(n: nat, unit: string)
    requires UnitText(unit) && |unit| == 2
    ensures ReadParts(Dec(n) + unit) == Some([Part(n, unit[1])])
  {
    ReadNumber(n, unit);
  }

  lemma ReadUnitThenMore(n: nat, unit: string, more: string)
    requires UnitText(unit) && |unit| == 3 && ReadParts(more).Some?
    ensures ReadPartsFrom(n, unit + more) == Some([Part(n, unit[1])] + ReadParts(more).value)
  {
    assert (unit + more)[3..] == more;
  }

  lemma {:induction false} ReadMore(n: nat, unit: string, more: string)
    requires UnitText(unit) && |unit| == 3 && ReadParts(more).Some?
    ensures ReadParts(Dec(n) + (unit + more)) == Some([Part(n, unit[1])] + ReadParts(more).value)
  {
    ReadNumber(n, unit + more);
    ReadUnitThenMore(n, unit, more);
  }

  // ------------------------------------------------- the words of a number of seconds

  lemma ReadMinutes(m: nat, x: nat)
    ensures ReadParts(Dec(x) + " с") == Some([Part(x, 'с')])
    ensures ReadParts(Dec(m) + (" м " + (Dec(x) + " с"))) == Some([Part(m, 'м'), Part(x, 'с')])
  {
    hide ReadParts;
    ReadLast(x, " с");
    ReadMore(m, " м ", Dec(x) + " с");
    assert [Part(m, 'м')] + [Part(x, 'с')] == [Part(m, 'м'), Part(x, 'с')];
  }

  lemma ReadHours(h: nat, m: nat, x: nat)
    ensures ReadParts(Dec(h) + (" ч " + (Dec(m) + (" м " + (Dec(x) + " с"))))) ==
            Some([Part(h, 'ч'), Part(m, 'м'), Part(x, 'с')])
  {
    hide ReadParts;
    ReadMinutes(m, x);
    ReadMore(h, " ч ", Dec(m) + (" м " + (Dec(x) + " с")));
    assert [Part(h, 'ч')] + [Part(m, 'м'), Part(x, 'с')] == [Part(h, 'ч'), Part(m, 'м'), Part(x, 'с')];
  }

  /** The three shapes of the printed clock. */
  lemma ClockShapes(h: nat, m: nat, x: nat)
    ensures h == 0 && m == 0 ==> Clock(h, m, x) == Dec(x) + " с"
    ensures h == 0 && m > 0 ==> Clock(h, m, x) == Dec(m) + (" м " + (Dec(x) + " с"))
    ensures h > 0 ==> Clock(h, m, x) == Dec(h) + (" ч " + (Dec(m) + (" м " + (Dec(x) + " с"))))
  {
  }

  function ClockParts(h: nat, m: nat, x: nat): seq<Part> {
    if h > 0 then [Part(h, 'ч'), Part(m, 'м'), Part(x, 'с')]
    else if m > 0 then [Part(m, 'м'), Part(x, 'с')]
    else [Part(x, 'с')]
  }

  lemma ReadClock(h: nat, m: nat, x: nat)
    ensures ReadParts(Clock(h, m, x)) == Some(ClockParts(h, m, x))
  {
    hide ReadParts, Clock;
    ClockShapes(h, m, x);
    ReadMinutes(m, x);
    ReadHours(h, m, x);
  }

  lemma TotalOfFew(a: Part, b: Part, c: Part)
    ensures Total([a]) == InSeconds(a)
    ensures Total([a, b]) == InSeconds(a) + InSeconds(b)
    ensures Total([a, b, c]) == InSeconds(a) + InSeconds(b) + InSeconds(c)
  {
    assert [a, b, c][1..] == [b, c] && [a, b][1..] == [b] && [b, c][1..] == [c] && [a][1..] == [] && [b][1..] == [];
    assert Total([c]) == InSeconds(c) + Total([c][1..]);
  }

  lemma ClockSplits(n: nat)
    ensures n == n / 3600 * 3600 + n % 3600 / 60 * 60 + n % 60
    ensures n < 60 <==> n / 3600 == 0 && n % 3600 / 60 == 0
    ensures n < 3600 <==> n / 3600 == 0
    ensures n % 3600 / 60 < 60 && n % 60 < 60
  {
  }

  lemma ClockPartsRead(n: nat)
    ensures ReadsAsClock(ClockParts(n / 3600, n % 3600 / 60, n % 60), n)
  {
    var h, m, x := n / 3600, n % 3600 / 60, n % 60;
    ClockSplits(n);
    TotalOfFew(Part(h, 'ч'), Part(m, 'м'), Part(x, 'с'));
    TotalOfFew(Part(m, 'м'), Part(x, 'с'), Part(x, 'с'));
    TotalOfFew(Part(x, 'с'), Part(x, 'с'), Part(x, 'с'));
  }

  /** The words are a clock's reading of the exact number of whole seconds, however many. */
  lemma WordsNameTheSeconds(n: nat)
    ensures SaysClock(SecondsWords(n), n)
  {
    hide ReadParts, Clock, ReadsAsClock, ClockParts;
    ReadClock(n / 3600, n % 3600 / 60, n % 60);
    ClockPartsRead(n);
  }

  /** The very words. */
  lemma WordsAreSpelled(n: nat)
    ensures n < 60 ==> SecondsWords(n) == Dec(n) + " с"
    ensures 60 <= n < 3600 ==> SecondsWords(n) == Dec(n / 60) + (" м " + (Dec(n % 60) + " с"))
    ensures n >= 3600 ==>
              SecondsWords(n) == Dec(n / 3600) + (" ч " + (Dec(n % 3600 / 60) + (" м " + (Dec(n % 60) + " с"))))
  {
    hide Clock;
    ClockSplits(n);
    ClockShapes(n / 3600, n % 3600 / 60, n % 60);
  }

  /** A number of seconds that is not whole is floored, and one below zero counts as none. */
  lemma DurationIsNamed(seconds: real)
    ensures seconds >= 0.0 ==> SaysClock(DurationWords(seconds), seconds.Floor)
    ensures seconds < 0.0 ==> SaysClock(DurationWords(seconds), 0)
  {
    hide SaysClock, SecondsWords;
    WordsNameTheSeconds(Max0(seconds.Floor));
  }

  // ------------------------------------------------- the label under the figures

  function LabelParts(h: nat, m: nat): seq<Part> {
    if h == 0 then [Part(m, 'м')] else if m > 0 then [Part(h, 'ч'), Part(m, 'м')] else [Part(h, 'ч')]
  }

  lemma {:induction false} ReadShortClock(h: nat, m: nat)
    ensures ReadParts(ShortClock(h, m)) == Some(LabelParts(h, m))
  {
    hide ReadParts;
    ReadLast(m, " м");
    if h > 0 {
      if m == 0 { ReadLast(h, " ч"); } else {
        ReadMore(h, " ч ", Dec(m) + " м");
        assert [Part(h, 'ч')] + [Part(m, 'м')] == [Part(h, 'ч'), Part(m, 'м')];
      }
    }
  }

  /** Hours and minutes are the same whether the seconds are dropped first or last. */
  lemma SameClock(n: nat)
    ensures n / 60 / 60 == n / 3600 && n / 60 % 60 == n % 3600 / 60
    ensures n - n % 60 == 3600 * (n / 3600) + 60 * (n % 3600 / 60)
    ensures n % 3600 < 60 <==> n % 3600 / 60 == 0
    ensures n < 3600 <==> n / 3600 == 0
    ensures n >= 60 ==> n / 3600 > 0 || n % 3600 / 60 > 0
    ensures n % 3600 / 60 < 60
  {
  }

  lemma LabelPartsRead(n: nat)
    requires n >= 60
    ensures ReadsAsLabel(LabelParts(n / 60 / 60, n / 60 % 60), n)
  {
    var h, m := n / 60 / 60, n / 60 % 60;
    SameClock(n);
    TotalOfFew(Part(h, 'ч'), Part(m, 'м'), Part(m, 'м'));
    TotalOfFew(Part(m, 'м'), Part(m, 'м'), Part(m, 'м'));
  }

  lemma UnderAMinuteIsNoNumber()
    ensures ReadParts(UNDER_A_MINUTE) == None
  {
  }

  lemma LabelNamesTheMinutes(n: nat)
    ensures n < 60 ==> MinutesWords(n / 60) == "меньше минуты"
    ensures n >= 60 ==> SaysLabel(MinutesWords(n / 60), n)
  {
    hide ReadParts, ReadsAsLabel, LabelParts, ShortClock;
    if n >= 60 {
      ReadShortClock(n / 60 / 60, n / 60 % 60);
      LabelPartsRead(n);
    }
  }

  /** Flooring by a thousand and then by sixty is flooring by sixty thousand. */
  lemma FloorTwice(ms: real)
    requires ms >= 0.0
    ensures (ms / 60000.0).Floor == (ms / 1000.0).Floor / 60
  {
    var s := (ms / 1000.0).Floor;
    var m := s / 60;
    assert (m * 60) as real <= ms / 1000.0 < (m * 60 + 60) as real;
    assert m as real <= ms / 60000.0 < (m + 1) as real;
  }

  lemma LabelOfSeconds(start: real, now: real)
    requires now >= start
    ensures ElapsedLabel(Some(start), now) == Some(MinutesWords(SecondsBetween(start, now) / 60))
  {
    FloorTwice(now - start);
    FloorIsNatural((now - start) / 60000.0);
    FloorIsNatural((now - start) / 1000.0);
  }

  lemma LabelIsSpelled(minutes: nat)
    ensures minutes == 0 ==> MinutesWords(minutes) == "меньше минуты"
    ensures 1 <= minutes < 60 ==> MinutesWords(minutes) == Dec(minutes) + " м"
    ensures minutes >= 60 && minutes % 60 == 0 ==> MinutesWords(minutes) == Dec(minutes / 60) + " ч"
    ensures minutes >= 60 && minutes % 60 > 0 ==>
              MinutesWords(minutes) == Dec(minutes / 60) + (" ч " + (Dec(minutes % 60) + " м"))
  {
  }

  /** The label is there exactly for a known moment that is not in the future. */
  lemma LabelIsThere(start: Option<real>, now: real)
    ensures ElapsedLabel(start, now).Some? <==> start.Some? && start.value <= now
  {
  }

  lemma PartsAgree(n: nat)
    requires n >= 60
    ensures var short, clock := LabelParts(n / 60 / 60, n / 60 % 60), ClockParts(n / 3600, n % 3600 / 60, n % 60);
            forall p: Part :: p in short <==> p in clock && p.unit != 'с' && p.n > 0
  {
    SameClock(n);
  }

  lemma WordsAgree(n: nat)
    requires n >= 60
    ensures ReadParts(MinutesWords(n / 60)).Some? && ReadParts(SecondsWords(n)).Some?
    ensures forall p: Part :: p in ReadParts(MinutesWords(n / 60)).value <==>
              p in ReadParts(SecondsWords(n)).value && p.unit != 'с' && p.n > 0
  {
    hide ReadParts, LabelParts, ClockParts, ShortClock, Clock;
    ReadShortClock(n / 60 / 60, n / 60 % 60);
    ReadClock(n / 3600, n % 3600 / 60, n % 60);
    PartsAgree(n);
  }

  /**
   * The two printers agree: for every interval that is not negative, the chip's words are a clock's
   * reading of its whole seconds, and the label under the figures says the very hours and minutes
   * those words say, zeros and seconds left out; below a minute it says so in words.
   */
  lemma PrintersAgree(start: real, now: real)
    requires now >= start
    ensures var n := ((now - start) / 1000.0).Floor;
            var named, said := ElapsedLabel(Some(start), now), DurationWords(n as real);
            && n >= 0 && named.Some? && SaysClock(said, n)
            && (n < 60 ==> named.value == "меньше минуты")
            && (n >= 60 ==> SaysLabel(named.value, n))
            && (n >= 60 ==> forall p: Part :: p in ReadParts(named.value).value <==>
                              p in ReadParts(said).value && p.unit != 'с' && p.n > 0)
  {
    hide ReadParts, SaysClock, SaysLabel, SecondsWords, ElapsedLabel, MinutesWords;
    var n := SecondsBetween(start, now);
    FloorIsNatural((now - start) / 1000.0);
    LabelOfSeconds(start, now);
    DurationIsNamed(n as real);
    LabelNamesTheMinutes(n);
    if n >= 60 { WordsAgree(n); }
    assert DurationWords(n as real) == SecondsWords(n);
  }

  // ------------------------------------------------- the chip and the wait

  /** A moment is known when it is a number, or a text with something in it that the date parser takes. */
  lemma MomentIsKnown(value: Moment)
    ensures value.Missing? || value.NotFinite? ==> MomentMs(value) == None
    ensures value.Number? ==> MomentMs(value) == Some(value.ms)
    ensures value.Written? && AllSpace(value.text) ==> MomentMs(value) == None
    ensures value.Written? && !AllSpace(value.text) ==> MomentMs(value) == value.parsed
  {
    if value.Written? { TrimIsEmpty(value.text); }
  }

  lemma ChipWords()
    ensures WordOf(Running) == "идёт" && WordOf(WaitingForYou) == "ждёт вас" && WordOf(Failed) == "встала"
  {
  }

  /**
   * The chip is there exactly for a known moment of work that is not over and a working clock; its
   * seconds are the whole ones since that moment, none for a moment to come; its text is the word
   * for the state and a clock's reading of them; and it never counts down while the clock goes on.
   */
  lemma {:induction false} ChipIsHonest(state: TimerState, since: Moment, now: real, later: real)
    requires now <= later
    ensures TimerChip(state, since, None) == None
    ensures var chip := TimerChip(state, since, Some(now));
            var next := TimerChip(state, since, Some(later));
            && (chip.Some? <==> !state.Idle? && MomentMs(since).Some?) && (next.Some? <==> chip.Some?)
            && (chip.Some? ==>
                  var start, word := MomentMs(since).value, WordOf(state);
                  && chip.value.state == state && chip.value.word == word
                  && (now >= start ==> chip.value.seconds == ((now - start) / 1000.0).Floor)
                  && (now < start ==> chip.value.seconds == 0)
                  && chip.value.seconds <= next.value.seconds
                  && (chip.value.spinning <==> state.Running?)
                  && word + " " <= chip.value.text
                  && SaysClock(chip.value.text[|word| + 1..], chip.value.seconds))
  {
    hide SaysClock, SecondsWords;
    var chip := TimerChip(state, since, Some(now));
    if chip.Some? {
      DurationIsNamed(chip.value.seconds as real);
      assert chip.value.text[|WordOf(state)| + 1..] == DurationWords(chip.value.seconds as real);
      var start := MomentMs(since).value;
      assert (now - start) / 1000.0 <= (later - start) / 1000.0;
    }
  }

  /** The words of a wait appear at the threshold and stay, and name the whole seconds of it. */
  lemma {:induction false} WaitIsNamed(what: string, elapsedMs: real, later: real)
    requires 0.0 <= elapsedMs <= later
    ensures var (shown, text) := WaitingWords(what, Some(elapsedMs));
            && (shown <==> elapsedMs >= 2400.0)
            && (shown ==> WaitingWords(what, Some(later)).0)
            && what + "… идёт " <= text
            && SaysClock(text[|what| + 7..], (elapsedMs / 1000.0).Floor)
  {
    hide SaysClock, DurationWords;
    var (shown, text) := WaitingWords(what, Some(elapsedMs));
    DurationIsNamed(elapsedMs / 1000.0);
    assert text[|what| + 7..] == DurationWords(elapsedMs / 1000.0);
  }

  /** A wait of no length, or of none that is known, is not shown and counts as no time at all. */
  lemma NoWaitIsNotShown(what: string, elapsedMs: Option<real>)
    requires elapsedMs.Some? ==> elapsedMs.value < 0.0
    ensures !WaitingWords(what, elapsedMs).0
    ensures WaitingWords(what, elapsedMs) == WaitingWords(what, Some(0.0))
  {
  }
}
