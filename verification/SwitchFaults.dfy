/** The runs outside the guarantee: crossed switches, a lost answer, a failed re-read. */
module SwitchFaults {
  import opened Text
  import opened Bells
  import opened Switch
  import opened SwitchSafety
  import opened SwitchQuiet
  import opened SwitchExact

  // ------------------------------------------------- two switches crossing

  /** The daemon agrees to both calls in the order they were sent, and the answers come back in the other. */
  function Crossing(older: nat, newer: nat, minted: nat, told: Picture): seq<Event> {
    [Accepts(older), Accepts(newer), Confirms(newer)] + [Orders(newer), Ends(newer)]
    + [Confirms(older), Orders(older), Ends(older)] + [Serves(minted + 1, told), BodyEnds(minted + 1), Lands]
  }

  lemma OneCall(k: nat, was: Select, now: Select)
    ensures map[k := was][k := now] == map[k := now]
    ensures Without(map[k := was], k) == map[]
  {
  }

  lemma TwoCalls(a: nat, x: Select, b: nat, y: Select, now: Select)
    requires a != b
    ensures map[a := x, b := y][a := now] == map[a := now, b := y]
    ensures map[a := x, b := y][b := now] == map[a := x, b := now]
    ensures Without(map[a := x, b := y], b) == map[a := x]
  {
  }

  lemma OlderAgreed(s: State, older: nat, x: Select, newer: nat, y: Select)
    requires older != newer && s.selects == map[older := x, newer := y]
    requires (x.stage.Sent? && x.target != "" && x.waiting) || x.stage.Accepted?
    ensures var t := Apply(s, Accepts(older));
            t == s.(active := t.active, selects := map[older := x.(stage := Accepted), newer := y])
  {
    TwoCalls(older, x, newer, y, x.(stage := Accepted));
  }

  lemma NewerAgreed(s: State, older: nat, x: Select, newer: nat, y: Select)
    requires older != newer && s.selects == map[older := x, newer := y]
    requires y.waiting && y.stage.Sent? && y.target != ""
    ensures Apply(Apply(s, Accepts(newer)), Confirms(newer)) ==
            s.(active := Some(y.target), mirror := Some(y.target),
               selects := map[older := x, newer := y.(stage := Confirmed)])
  {
    TwoCalls(older, x, newer, y, y.(stage := Accepted));
    TwoCalls(older, x, newer, y.(stage := Accepted), y.(stage := Confirmed));
  }

  lemma AfterTwo(s: State, es: seq<Event>)
    requires |es| == 2
    ensures After(s, es) == Apply(Apply(s, es[0]), es[1])
  {
    AfterFirst(s, es);
    AfterFirst(Apply(s, es[0]), es[1..]);
  }

  lemma AfterThree(s: State, es: seq<Event>)
    requires |es| == 3
    ensures After(s, es) == Apply(Apply(Apply(s, es[0]), es[1]), es[2])
  {
    AfterFirst(s, es);
    AfterTwo(Apply(s, es[0]), es[1..]);
  }

  lemma {:induction false} BothAgreed(s: State, older: nat, x: Select, newer: nat, y: Select)
    requires older != newer && s.selects == map[older := x, newer := y]
    requires x.stage.Sent? || x.stage.Accepted?
    requires x.waiting && y.waiting && y.stage.Sent? && x.target != "" && y.target != ""
    ensures After(s, [Accepts(older), Accepts(newer), Confirms(newer)]) ==
            s.(active := Some(y.target), mirror := Some(y.target),
               selects := map[older := x.(stage := Accepted), newer := y.(stage := Confirmed)])
  {
    AfterThree(s, [Accepts(older), Accepts(newer), Confirms(newer)]);
    OlderAgreed(s, older, x, newer, y);
    NewerAgreed(Apply(s, Accepts(older)), older, x.(stage := Accepted), newer, y);
  }

  lemma NewerEnds(s: State, older: nat, x: Select, newer: nat, y: Select)
    requires older != newer && s.selects == map[older := x, newer := y] && y.stage.Confirmed? && s.cache.Some?
    ensures After(s, [Orders(newer), Ends(newer)]) == StartBody(s).(selects := map[older := x])
  {
    AfterTwo(s, [Orders(newer), Ends(newer)]);
    var y' := y.(stage := Refreshing);
    TwoCalls(older, x, newer, y, y');
    TwoCalls(older, x, newer, y', y');
  }

  lemma LastCallEnds(s: State, k: nat, x: Select)
    requires s.selects == map[k := x] && x.stage.Confirmed? && s.cache.Some?
    ensures Apply(Apply(s, Orders(k)), Ends(k)) == StartBody(s).(selects := map[])
  {
    OneCall(k, x, x.(stage := Refreshing));
    OneCall(k, x.(stage := Refreshing), x);
  }

  lemma OlderEnds(s: State, older: nat, x: Select)
    requires s.selects == map[older := x] && x.stage.Accepted? && s.cache.Some?
    ensures After(s, [Confirms(older), Orders(older), Ends(older)]) ==
            StartBody(s.(mirror := Some(x.target))).(selects := map[])
  {
    AfterThree(s, [Confirms(older), Orders(older), Ends(older)]);
    OneCall(older, x, x.(stage := Confirmed));
    LastCallEnds(Apply(s, Confirms(older)), older, x.(stage := Confirmed));
  }

  lemma RunningLands(s: State, b: nat, told: Picture)
    requires s.running == Some(b) && b in s.bodies && s.bodies[b].phase.Asked? && Truthy(s.mirror)
    ensures var t := After(s, [Serves(b, told), BodyEnds(b), Lands]);
            && t.cache.Some? && Label(t) == s.active && t.mirror == s.mirror && t.active == s.active
            && t.selects == s.selects && t.running.None? && !t.readFailed
  {
    AfterThree(s, [Serves(b, told), BodyEnds(b), Lands]);
  }

  /** The mirror is back on the older project, the daemon stays on the newer, and the last re-read has just started. */
  predicate Crossed(t: State, older: string, newer: string, r: nat) {
    && t.selects == map[] && t.cache.Some? && t.active == Some(newer) && t.mirror == Some(older)
    && t.running == Some(r) && r in t.bodies && t.bodies[r].phase.Asked?
  }

  lemma SecondReadCrosses(s: State, calls: map<nat, Select>, older: string, newer: string)
    requires s.active == Some(newer) && s.cache.Some?
    ensures Crossed(StartBody(StartBody(s).(selects := calls).(mirror := Some(older))).(selects := map[]),
                    older, newer, s.minted + 1)
  {
  }

  lemma AnswersCross(s: State, older: nat, x: Select, newer: nat, y: Select)
    requires older != newer && s.selects == map[older := x, newer := y] && s.cache.Some?
    requires x.stage.Accepted? && y.stage.Confirmed? && s.active == Some(y.target)
    ensures Crossed(After(After(s, [Orders(newer), Ends(newer)]), [Confirms(older), Orders(older), Ends(older)]),
                    x.target, y.target, s.minted + 1)
  {
    hide After, Apply, Crossed;
    NewerEnds(s, older, x, newer, y);
    OlderEnds(StartBody(s).(selects := map[older := x]), older, x);
    SecondReadCrosses(s, map[older := x], x.target, y.target);
  }

  lemma {:induction false} AfterFour(s: State, a: seq<Event>, b: seq<Event>, c: seq<Event>, d: seq<Event>)
    ensures After(s, a + b + c + d) == After(After(After(After(s, a), b), c), d)
  {
    AfterSum(s, a, b);
    AfterSum(s, a + b, c);
    AfterSum(s, a + b + c, d);
  }

  lemma AfterCrossing(s: State, older: nat, x: Select, newer: nat, y: Select, told: Picture)
    requires older != newer && s.selects == map[older := x, newer := y] && s.cache.Some?
    requires x.stage.Sent? || x.stage.Accepted?
    requires x.waiting && y.waiting && y.stage.Sent? && x.target != "" && y.target != ""
    ensures var t := After(s, Crossing(older, newer, s.minted, told));
            && t.selects == map[] && t.running.None? && !t.readFailed && t.cache.Some?
            && t.active == Label(t) == Some(y.target) && t.mirror == Some(x.target)
  {
    hide After;
    var r := s.minted + 1;
    BothAgreed(s, older, x, newer, y);
    var a := After(s, [Accepts(older), Accepts(newer), Confirms(newer)]);
    AnswersCross(a, older, x.(stage := Accepted), newer, y.(stage := Confirmed));
    var c := After(After(a, [Orders(newer), Ends(newer)]), [Confirms(older), Orders(older), Ends(older)]);
    RunningLands(c, r, told);
    AfterFour(s, [Accepts(older), Accepts(newer), Confirms(newer)], [Orders(newer), Ends(newer)],
              [Confirms(older), Orders(older), Ends(older)], [Serves(r, told), BodyEnds(r), Lands]);
  }

  // ------------------------------------------------- runs that end apart

  /** Another window moves the daemon, and the next poll shows its project uncovered. */
  lemma OtherWindowStrandsTheMirror(s: State, q: string, told: Picture)
    requires s.selects == map[] && s.running.None? && Truthy(s.mirror) && s.mirror != Some(q)
    ensures var t := After(s, [DaemonMoves(Some(q))] + Poll(s.minted, told));
            !Waits(t) && !t.readFailed && t.mirror == s.mirror && Label(t) == Some(q) && !Honest(t)
  {
    assert [DaemonMoves(Some(q))][..0] == [];
    assert After(s, [DaemonMoves(Some(q))]) == s.(active := Some(q));
    AfterPoll(s.(active := Some(q)), told);
    AfterSum(s, [DaemonMoves(Some(q))], Poll(s.minted, told));
  }

  lemma BothPressed(s: State, first: string, second: string)
    requires s.selects == map[] && !Waits(s)
    ensures After(s, [Pick(MachinesScreen, first), Pick(Selector, second)]) ==
            s.(selects := map[s.minted := Select(MachinesScreen, first, Sent, true),
                              s.minted + 1 := Select(Selector, second, Sent, true)],
               minted := s.minted + 2)
  {
    AfterTwo(s, [Pick(MachinesScreen, first), Pick(Selector, second)]);
    var x := Select(MachinesScreen, first, Sent, true);
    var t := Apply(s, Pick(MachinesScreen, first));
    assert t == s.(selects := map[s.minted := x], minted := s.minted + 1);
    assert !Busy(t, Selector);
  }

  /**
   * And the window can get there: the machines screen starts one switch, the selector, which
   * watches only its own pending flag, takes another press; the answers cross; the window ends
   * quiet and uncovered with the daemon on one project and the mirror on the other.
   */
  lemma TwoDoorsCanStrandTheMirror(s: State, first: string, second: string)
    requires Inv(s) && s.selects == map[] && !Waits(s) && first != "" && second != "" && first != second
    ensures var pressed := [Pick(MachinesScreen, first), Pick(Selector, second)];
            var es := pressed + Crossing(s.minted, s.minted + 1, s.minted + 2, s.cache.value.picture);
            var t := After(s, es);
            && !Waits(t) && !t.readFailed
            && t.mirror == Some(first) && t.active == Some(second) && Label(t) == Some(second)
  {
    var pressed := [Pick(MachinesScreen, first), Pick(Selector, second)];
    var x, y := Select(MachinesScreen, first, Sent, true), Select(Selector, second, Sent, true);
    BothPressed(s, first, second);
    AfterCrossing(After(s, pressed), s.minted, x, s.minted + 1, y, s.cache.value.picture);
    AfterSum(s, pressed, Crossing(s.minted, s.minted + 1, s.minted + 2, s.cache.value.picture));
  }

  // ------------------------------------------------- the answer that never came

  lemma GivenUp(s: State, call: nat)
    requires s.selects.Keys == {call} && At(s, call, Accepted)
    ensures After(s, [GivesUp(call)]) == s.(selects := map[])
  {
    assert [GivesUp(call)][..0] == [];
    assert Without(s.selects, call) == map[];
  }

  /**
   * The daemon switched but the window stopped waiting: after the next poll the screen is
   * uncovered and about a project the mirror does not name.
   */
  lemma LostAnswerStrandsTheMirror(s: State, call: nat, told: Picture)
    requires Inv(s) && s.selects.Keys == {call} && At(s, call, Accepted) && s.running.None? && Truthy(s.mirror)
    requires s.mirror != Some(s.selects[call].target)
    ensures var t := After(s, [GivesUp(call)] + Poll(s.minted, told));
            && !Waits(t) && !t.readFailed && t.mirror == s.mirror
            && Label(t) == t.active == Some(s.selects[call].target)
            && Waits(Apply(t, ReadDue))
  {
    GivenUp(s, call);
    AfterPoll(s.(selects := map[]), told);
    AfterSum(s, [GivesUp(call)], Poll(s.minted, told));
  }

  // ------------------------------------------------- the re-read that failed

  lemma FailedReRead(s: State, call: nat)
    requires s.selects.Keys == {call} && At(s, call, Confirmed) && s.cache.Some?
    ensures var t := After(s, [Orders(call), Ends(call), ReadFails(s.minted)]);
            && t.selects == map[] && t.running.None? && t.readFailed && t.cache == s.cache && t.mirror == s.mirror
  {
    AfterThree(s, [Orders(call), Ends(call), ReadFails(s.minted)]);
    var x := s.selects[call];
    assert s.selects == map[call := x];
    LastCallEnds(s, call, x);
  }

  /**
   * The exception in the guarantee is real: the switch went through, its re-read failed, and the
   * old picture is shown uncovered.
   */
  lemma {:induction false} FailedReReadShowsTheOldPicture(s: State, call: nat)
    requires Inv(s) && s.selects.Keys == {call} && At(s, call, Confirmed) && Label(s) != s.mirror
    ensures var es := [Orders(call), Ends(call), ReadFails(s.minted)];
            var t := After(s, es);
            DisciplinedRun(s, es) && !Waits(t) && Label(t) == Label(s) && t.mirror == s.mirror && t.readFailed
  {
    var es := [Orders(call), Ends(call), ReadFails(s.minted)];
    UneventfulIsDisciplined(s, es);
    FailedReRead(s, call);
  }
}
