/** The conditions of the guarantee are exact: whatever breaks them can end in a wrong screen. */
module SwitchExact {
  import opened Text
  import opened Bells
  import opened Switch
  import opened SwitchSafety
  import opened SwitchQuiet

  /** What the window owes: an uncovered screen is about the chosen project, or the last read failed. */
  predicate Honest(s: State) {
    !Waits(s) && Truthy(s.mirror) ==> Label(s) == s.mirror || s.readFailed
  }

  lemma InvIsHonest(s: State)
    requires Inv(s)
    ensures Honest(s)
  {
    if !Waits(s) { NothingInFlight(s); }
  }

  /** A run in which nothing fails and nobody presses anything is disciplined. */
  lemma UneventfulIsDisciplined(s: State, es: seq<Event>)
    requires forall i :: 0 <= i < |es| ==> !es[i].Pick? && !es[i].GivesUp? && !es[i].DaemonMoves?
    ensures DisciplinedRun(s, es)
  {
  }

  // ------------------------------------------------- the discipline is exact

  /** Every disciplined run from here is honest at its end. */
  ghost predicate StaysHonest(s: State) {
    forall es :: DisciplinedRun(s, es) ==> Honest(After(s, es))
  }

  lemma InvStaysHonest(s: State)
    requires Inv(s)
    ensures StaysHonest(s)
  {
    forall es | DisciplinedRun(s, es) ensures Honest(After(s, es)) {
      RunKeeps(s, es);
      InvIsHonest(After(s, es));
    }
  }

  lemma DishonestNow(s: State)
    requires !Honest(s)
    ensures !StaysHonest(s)
  {
    assert DisciplinedRun(s, []) && After(s, []) == s;
  }

  lemma DisciplinedFirst(s: State, e: Event, es: seq<Event>)
    requires Disciplined(s, e) && DisciplinedRun(Apply(s, e), es)
    ensures DisciplinedRun(s, [e] + es) && ([e] + es)[1..] == es
  {
    hide Apply, Disciplined;
    var run := [e] + es;
    assert run[1..] == es;
    forall i | 0 <= i < |run| ensures Disciplined(After(s, run[..i]), run[i]) {
      if i > 0 {
        AfterFirst(s, run[..i]);
        assert run[..i][1..] == es[..i - 1];
      }
    }
  }

  lemma DishonestLater(s: State, e: Event)
    requires Disciplined(s, e) && !StaysHonest(Apply(s, e))
    ensures !StaysHonest(s)
  {
    var es :| DisciplinedRun(Apply(s, e), es) && !Honest(After(Apply(s, e), es));
    DisciplinedFirst(s, e, es);
    AfterFirst(s, [e] + es);
  }

  lemma OnceDishonest(s: State, e: Event)
    requires Disciplined(s, e)
    ensures StaysHonest(s) ==> StaysHonest(Apply(s, e))
  {
    hide *;
    if !StaysHonest(Apply(s, e)) { DishonestLater(s, e); }
  }

  /** The event that takes a call one stage on, or ends it. */
  function Onward(s: State, k: nat): Event
    requires k in s.selects
  {
    match s.selects[k].stage
    case Sent => Refuses(k)
    case Accepted => Confirms(k)
    case Confirmed => Orders(k)
    case Refreshing => Ends(k)
  }

  function Agreed(s: State): set<nat> {
    set k | k in s.selects && s.selects[k].stage.Accepted?
  }

  function Unordered(s: State): set<nat> {
    set k | k in s.selects && (s.selects[k].stage.Accepted? || s.selects[k].stage.Confirmed?)
  }

  /** How many events the calls still have before them, at most. */
  function Owed(s: State): nat {
    |s.selects.Keys| + |Unordered(s)| + |Agreed(s)|
  }

  lemma FewerAre<T>(smaller: set<T>, larger: set<T>)
    requires smaller <= larger
    ensures |smaller| <= |larger| && (smaller != larger ==> |smaller| < |larger|)
  {
    assert larger == smaller + (larger - smaller);
  }

  lemma OnwardOwesLess(s: State, k: nat)
    requires k in s.selects
    ensures Owed(Apply(s, Onward(s, k))) < Owed(s)
  {
    var t := Apply(s, Onward(s, k));
    FewerAre(t.selects.Keys, s.selects.Keys);
    FewerAre(Unordered(t), Unordered(s));
    FewerAre(Agreed(t), Agreed(s));
    match s.selects[k].stage {
      case Sent => assert k !in t.selects.Keys;
      case Accepted => assert k in Agreed(s) && k !in Agreed(t);
      case Confirmed => assert k in Unordered(s) && k !in Unordered(t);
      case Refreshing => assert k !in t.selects.Keys;
    }
  }

  /** The mirror is on `x`, or an agreed call will put it there, and nothing brings the daemon to it. */
  ghost predicate Apart(s: State, x: string) {
    && WellFormed(s) && x != "" && s.active != Some(x)
    && (forall k :: At(s, k, Accepted) ==> s.selects[k].target == x)
    && (s.mirror == Some(x) || exists k :: At(s, k, Accepted))
  }

  /** A call taken on moves no other call and not the daemon; only an agreed one moves the mirror. */
  lemma OnwardMoves(s: State, k: nat)
    requires k in s.selects
    ensures var t := Apply(s, Onward(s, k));
            && t.active == s.active
            && t.mirror == (if At(s, k, Accepted) then Some(s.selects[k].target) else s.mirror)
            && forall j :: At(t, j, Accepted) <==> j != k && At(s, j, Accepted)
    ensures forall j :: j != k && j in s.selects ==>
              j in Apply(s, Onward(s, k)).selects && Apply(s, Onward(s, k)).selects[j] == s.selects[j]
  {
  }

  lemma ApartOnward(s: State, x: string, k: nat)
    requires Apart(s, x) && k in s.selects
    ensures Apart(Apply(s, Onward(s, k)), x)
  {
    hide Apply;
    StepIsWellFormed(s, Onward(s, k));
    OnwardMoves(s, k);
  }

  lemma PollIsDishonest(s: State)
    requires s.selects == map[] && s.running.None? && Truthy(s.mirror) && s.active != s.mirror
    ensures !StaysHonest(s)
  {
    var told := Picture(None, [], []);
    var poll := Poll(s.minted, told);
    AfterPoll(s, told);
    UneventfulIsDisciplined(s, poll);
    assert !Honest(After(s, poll));
  }

  lemma ApartIsDishonest(s: State, x: string)
    requires Apart(s, x)
    ensures !StaysHonest(s)
    decreases Owed(s), if s.running.Some? then 1 else 0
  {
    if k :| k in s.selects {
      OnwardOwesLess(s, k);
      ApartOnward(s, x, k);
      ApartIsDishonest(Apply(s, Onward(s, k)), x);
      DishonestLater(s, Onward(s, k));
    } else {
      assert s.selects == map[] && s.mirror == Some(x);
      if s.running.Some? {
        var e := if CanLand(s) then Lands else ReadFails(s.running.value);
        StepIsWellFormed(s, e);
        ApartIsDishonest(Apply(s, e), x);
        DishonestLater(s, e);
      } else {
        PollIsDishonest(s);
      }
    }
  }

  /**
   * A picture about another project than the mirrored one is in the cache or on its way there, and
   * no re-read follows.
   */
  ghost predicate Stale(s: State) {
    && WellFormed(s) && Truthy(s.mirror) && (forall k :: !At(s, k, Accepted) && !At(s, k, Confirmed))
    && if s.running.Some? then
         !s.bodies[s.running.value].phase.Asked? && !Told(s.bodies[s.running.value], s.mirror)
       else s.cache.Some? && Label(s) != s.mirror && !s.readFailed
  }

  lemma StaleOnward(s: State, k: nat)
    requires Stale(s) && k in s.selects
    ensures Stale(Apply(s, Onward(s, k)))
  {
    var t := Apply(s, Onward(s, k));
    assert At(s, k, Sent) || At(s, k, Refreshing);
    assert forall j, stage :: At(t, j, stage) ==> At(s, j, stage);
    StepIsWellFormed(s, Onward(s, k));
  }

  lemma StaleLands(s: State)
    requires Stale(s) && s.selects == map[] && s.running.Some?
    ensures !StaysHonest(s)
  {
    var r := s.running.value;
    if CanLand(s) {
      DishonestNow(Apply(s, Lands));
      DishonestLater(s, Lands);
    } else {
      var t := Apply(s, BodyEnds(r));
      StepIsWellFormed(s, BodyEnds(r));
      DishonestNow(Apply(t, Lands));
      DishonestLater(t, Lands);
      DishonestLater(s, BodyEnds(r));
    }
  }

  lemma StaleIsDishonest(s: State)
    requires Stale(s)
    ensures !StaysHonest(s)
    decreases Owed(s)
  {
    if k :| k in s.selects {
      OnwardOwesLess(s, k);
      StaleOnward(s, k);
      StaleIsDishonest(Apply(s, Onward(s, k)));
      DishonestLater(s, Onward(s, k));
    } else {
      assert s.selects == map[];
      if s.running.Some? { StaleLands(s); } else { DishonestNow(s); }
    }
  }

  // ------------------------------------------------- an empty mirror seeded by a stray answer

  /** A stray answer seeds the empty mirror with the daemon's project beside an answer that is not about it. */
  lemma StraySeeds(s: State, b: nat)
    requires WellFormed(s) && !Truthy(s.mirror) && Truthy(s.active) && !Current(s)
    requires forall k :: !At(s, k, Accepted) && !At(s, k, Confirmed)
    requires b in s.bodies && s.running != Some(b)
    requires s.bodies[b].phase.Asked? || (s.bodies[b].phase.Answered? && Told(s.bodies[b], s.active))
    ensures !StaysHonest(s)
    decreases if s.bodies[b].phase.Asked? then 1 else 0
  {
    if s.bodies[b].phase.Asked? {
      var e := Serves(b, Picture(None, [], []));
      var t := Apply(s, e);
      assert forall k, stage :: At(t, k, stage) == At(s, k, stage);
      StraySeeds(t, b);
      DishonestLater(s, e);
    } else {
      var t := Apply(s, BodyEnds(b));
      StepIsWellFormed(s, BodyEnds(b));
      assert forall k, stage :: At(t, k, stage) == At(s, k, stage);
      StaleIsDishonest(t);
      DishonestLater(s, BodyEnds(b));
    }
  }

  /** An answer in flight that tells of another project than the daemon's seeds the empty mirror with it. */
  lemma OtherNameSeeds(s: State, b: nat)
    requires WellFormed(s) && !Truthy(s.mirror) && (forall k :: !At(s, k, Accepted))
    requires Names(s, b) && s.bodies[b].phase.Answered? && !Told(s.bodies[b], s.active)
    ensures !StaysHonest(s)
  {
    var t := Apply(s, BodyEnds(b));
    StepIsWellFormed(s, BodyEnds(b));
    assert forall k, stage :: At(t, k, stage) == At(s, k, stage);
    ApartIsDishonest(t, s.bodies[b].phase.picture.activeProject.value);
    DishonestLater(s, BodyEnds(b));
  }

  /** Two reads are started and the newer one is served: the older can still seed the mirror beside it. */
  lemma TwoReads(s: State) returns (t: State)
    requires WellFormed(s) && s.cache.Some?
    ensures WellFormed(t) && t == s.(bodies := t.bodies, running := Some(s.minted + 1), minted := s.minted + 2)
    ensures s.minted in t.bodies && t.bodies[s.minted].phase.Asked?
    ensures s.minted + 1 in t.bodies && Told(t.bodies[s.minted + 1], s.active)
    ensures StaysHonest(s) ==> StaysHonest(t)
  {
    hide StaysHonest;
    var a := Apply(s, Refresh);
    var b := Apply(a, Refresh);
    var serve := Serves(s.minted + 1, Picture(None, [], []));
    t := Apply(b, serve);
    OnceDishonest(s, Refresh);
    OnceDishonest(a, Refresh);
    OnceDishonest(b, serve);
    StepIsWellFormed(s, Refresh);
    StepIsWellFormed(a, Refresh);
    StepIsWellFormed(b, serve);
  }

  /** While nothing is chosen, a call agreed to behind the window's back is enough. */
  lemma UnchosenIsDishonest(s: State, k: nat)
    requires WellFormed(s) && !Truthy(s.mirror) && s.cache.Some?
    requires forall j :: !At(s, j, Accepted) && !At(s, j, Confirmed)
    requires At(s, k, Sent) && !s.selects[k].waiting && !Pointless(s, s.selects[k].target)
    ensures !StaysHonest(s)
  {
    hide StaysHonest;
    var c := TwoReads(s);
    var d := Apply(c, Accepts(k));
    assert d == c.(active := Some(s.selects[k].target), selects := Without(s.selects, k));
    assert forall j, stage :: At(d, j, stage) ==> At(s, j, stage);
    StraySeeds(d, s.minted);
    OnceDishonest(c, Accepts(k));
  }

  // ------------------------------------------------- each condition, by itself

  /** The call is agreed to after the window has moved on or given up. */
  lemma LateAgreement(s: State, k: nat, x: string)
    requires WellFormed(s) && s.mirror == Some(x) && x != "" && (forall j :: !At(s, j, Accepted))
    requires At(s, k, Sent) && !s.selects[k].waiting && s.selects[k].target != "" && s.selects[k].target != x
    ensures !StaysHonest(s)
  {
    var t := Apply(s, Accepts(k));
    StepIsWellFormed(s, Accepts(k));
    assert forall j, stage :: At(t, j, stage) ==> At(s, j, stage);
    ApartIsDishonest(t, x);
    DishonestLater(s, Accepts(k));
  }

  lemma LossBeforeAgreement(s: State, k: nat)
    requires Inv(s) && At(s, k, Sent) && !Pointless(s, s.selects[k].target)
    ensures !StaysHonest(Apply(s, GivesUp(k)))
  {
    var t := Apply(s, GivesUp(k));
    assert forall j, stage :: At(t, j, stage) == At(s, j, stage);
    assert forall j :: At(s, j, Accepted) ==> Unanswered(s, j) && Unanswered(s, k);
    if Truthy(s.mirror) {
      LateAgreement(t, k, s.mirror.value);
    } else {
      assert forall j :: At(s, j, Confirmed) ==> !Unanswered(s, j);
      UnchosenIsDishonest(t, k);
    }
  }

  lemma LossAfterAgreement(s: State, k: nat)
    requires Inv(s) && At(s, k, Accepted) && !HarmlessLoss(s, k)
    ensures !StaysHonest(Apply(s, GivesUp(k)))
  {
    var t := Apply(s, GivesUp(k));
    StepIsWellFormed(s, GivesUp(k));
    assert forall j, stage :: At(t, j, stage) ==> j != k && At(s, j, stage);
    assert forall j :: At(s, j, Confirmed) ==> !Unanswered(s, j);
    if Truthy(s.mirror) {
      if s.mirror != s.active { ApartIsDishonest(t, s.mirror.value); } else { StaleIsDishonest(t); }
    } else if b :| Names(s, b) && s.bodies[b].phase.picture.activeProject != s.active {
      OtherNameSeeds(t, b);
    } else {
      var b :| Stray(s, b);
      StraySeeds(t, b);
    }
  }

  lemma MoveApart(s: State, place: Option<string>)
    requires Inv(s) && place != s.active && (Truthy(s.mirror) || exists k :: At(s, k, Accepted))
    ensures !StaysHonest(Apply(s, DaemonMoves(place)))
  {
    var t := Apply(s, DaemonMoves(place));
    assert forall k, stage :: At(t, k, stage) == At(s, k, stage);
    if k :| At(s, k, Accepted) {
      ApartIsDishonest(t, s.selects[k].target);
    } else {
      ApartIsDishonest(t, s.mirror.value);
    }
  }

  lemma MoveUnchosen(s: State, place: Option<string>)
    requires Inv(s) && !Truthy(s.mirror) && (forall k :: !At(s, k, Accepted)) && !HarmlessMove(s, place)
    ensures !StaysHonest(Apply(s, DaemonMoves(place)))
  {
    var t := Apply(s, DaemonMoves(place));
    assert forall k, stage :: At(t, k, stage) == At(s, k, stage);
    assert forall k :: At(s, k, Confirmed) ==> !Unanswered(s, k);
    if k :| At(s, k, Sent) && !s.selects[k].waiting && !Pointless(t, s.selects[k].target) {
      UnchosenIsDishonest(t, k);
    } else if b :| Names(t, b) && t.bodies[b].phase.picture.activeProject != place {
      assert Names(s, b);
      OtherNameSeeds(t, b);
    } else {
      var b :| Stray(s, b);
      if !s.bodies[b].phase.Asked? { assert Names(s, b) && Names(t, b); }
      StraySeeds(t, b);
    }
  }

  lemma OneCallMoves(s: State, t: State, k: nat, stage: Stage)
    requires k in s.selects && t.selects == s.selects[k := s.selects[k].(stage := stage)]
    ensures forall j, other :: At(t, j, other) <==> if j == k then other == stage else At(s, j, other)
    ensures forall j :: j in t.selects <==> j in s.selects
    ensures forall j :: j in s.selects ==>
              t.selects[j].target == s.selects[j].target && t.selects[j].waiting == s.selects[j].waiting
  {
  }

  /** The daemon agrees to a call that is waited for. */
  lemma CallIsAgreed(s: State, n: nat)
    requires WellFormed(s) && At(s, n, Sent) && s.selects[n].waiting && s.selects[n].target != ""
    ensures var t := Apply(s, Accepts(n));
            && WellFormed(t) && t.active == Some(s.selects[n].target) && t.mirror == s.mirror
            && t.selects == s.selects[n := s.selects[n].(stage := Accepted)]
            && (StaysHonest(s) ==> StaysHonest(t))
  {
    hide StaysHonest;
    StepIsWellFormed(s, Accepts(n));
    OnceDishonest(s, Accepts(n));
  }

  lemma CallIsAnswered(s: State, n: nat)
    requires WellFormed(s) && At(s, n, Accepted)
    ensures var t := Apply(s, Confirms(n));
            && WellFormed(t) && t.active == s.active && t.mirror == Some(s.selects[n].target)
            && t.selects == s.selects[n := s.selects[n].(stage := Confirmed)]
            && (StaysHonest(s) ==> StaysHonest(t))
  {
    StepIsWellFormed(s, Confirms(n));
    OnceDishonest(s, Confirms(n));
  }

  /** The newer of two calls is agreed to and answered. */
  lemma NewerFirst(s: State, n: nat) returns (t: State)
    requires WellFormed(s) && At(s, n, Sent) && s.selects[n].waiting && s.selects[n].target != ""
    ensures WellFormed(t) && t.active == t.mirror == Some(s.selects[n].target)
    ensures t.selects == s.selects[n := s.selects[n].(stage := Confirmed)]
    ensures StaysHonest(s) ==> StaysHonest(t)
  {
    CallIsAgreed(s, n);
    CallIsAnswered(Apply(s, Accepts(n)), n);
    t := Apply(Apply(s, Accepts(n)), Confirms(n));
  }

  /** The newer call is through, and an older one that was agreed to is answered after it. */
  lemma OlderAnsweredLast(s: State, n: nat, x: string)
    requires WellFormed(s) && At(s, n, Sent) && s.selects[n].waiting
    requires s.selects[n].target != "" && x != "" && x != s.selects[n].target
    requires (exists j :: At(s, j, Accepted)) && forall j :: At(s, j, Accepted) ==> s.selects[j].target == x
    ensures !StaysHonest(s)
  {
    var j :| At(s, j, Accepted);
    hide Apply, StaysHonest;
    var t := NewerFirst(s, n);
    OneCallMoves(s, t, n, Confirmed);
    assert At(t, j, Accepted);
    ApartIsDishonest(t, x);
  }

  /** The newer call is through, and an older one the window gave up on is agreed to after it. */
  lemma OlderAgreedLast(s: State, n: nat, k: nat)
    requires WellFormed(s) && At(s, n, Sent) && s.selects[n].waiting && At(s, k, Sent) && !s.selects[k].waiting
    requires !Compatible(s.selects[k].target, s.selects[n].target) && forall j :: !At(s, j, Accepted)
    ensures !StaysHonest(s)
  {
    hide Apply, StaysHonest;
    var t := NewerFirst(s, n);
    OneCallMoves(s, t, n, Confirmed);
    LateAgreement(t, k, s.selects[n].target);
  }

  lemma OlderAgreedFirst(s: State, n: nat, k: nat)
    requires WellFormed(s) && At(s, n, Sent) && s.selects[n].waiting && At(s, k, Sent) && s.selects[k].waiting
    requires !Compatible(s.selects[k].target, s.selects[n].target) && forall j :: !At(s, j, Accepted)
    ensures !StaysHonest(s)
  {
    hide Apply, StaysHonest;
    CallIsAgreed(s, k);
    var t := Apply(s, Accepts(k));
    OneCallMoves(s, t, k, Accepted);
    assert At(t, k, Accepted);
    OlderAnsweredLast(t, n, s.selects[k].target);
  }

  lemma PickCrosses(s: State, door: Door, id: string, k: nat)
    requires Inv(s) && CanPick(s, door) && Unanswered(s, k) && !Compatible(s.selects[k].target, id)
    ensures !StaysHonest(Apply(s, Pick(door, id)))
  {
    var t, n := Apply(s, Pick(door, id)), s.minted;
    StepIsWellFormed(s, Pick(door, id));
    assert t.selects == s.selects[n := Select(door, id, Sent, true)];
    assert forall j :: At(t, j, Accepted) <==> At(s, j, Accepted);
    if exists j :: At(s, j, Accepted) {
      assert forall j :: At(s, j, Accepted) ==> Unanswered(s, j);
      OlderAnsweredLast(t, n, s.selects[k].target);
    } else if s.selects[k].waiting {
      OlderAgreedFirst(t, n, k);
    } else {
      OlderAgreedLast(t, n, k);
    }
  }

  /**
   * The discipline is exact. From any state the guarantee can be in, whatever comes next: every
   * disciplined run after it ends with an honest screen if and only if it was disciplined. One
   * undisciplined press, lost answer or move of the daemon can always be followed by a blameless
   * run to an uncovered screen about a project the mirror does not name.
   */
  lemma {:induction false} DisciplineIsExact(s: State, e: Event)
    requires Inv(s)
    ensures StaysHonest(Apply(s, e)) <==> Disciplined(s, e)
  {
    if Disciplined(s, e) {
      StepKeeps(s, e);
      InvStaysHonest(Apply(s, e));
    } else if e.Pick? {
      var k :| Unanswered(s, k) && !Compatible(s.selects[k].target, e.id);
      PickCrosses(s, e.door, e.id, k);
    } else if e.GivesUp? {
      if At(s, e.call, Sent) { LossBeforeAgreement(s, e.call); } else { LossAfterAgreement(s, e.call); }
    } else if Truthy(s.mirror) || exists k :: At(s, k, Accepted) {
      MoveApart(s, e.place);
    } else {
      MoveUnchosen(s, e.place);
    }
  }

  /**
   * The guard a second switch needs, exactly: beside a switch that is still to be answered, a
   * press in the selector keeps every later disciplined run honest exactly when it names the same
   * project.
   */
  lemma SecondSwitchIsSafeIffSameProject(s: State, older: nat, id: string)
    requires Inv(s) && Unanswered(s, older) && CanPick(s, Selector)
    requires s.selects[older].target != "" && id != ""
    ensures var t := Apply(s, Pick(Selector, id));
            (forall es :: DisciplinedRun(t, es) ==> Honest(After(t, es))) <==> s.selects[older].target == id
  {
    DisciplineIsExact(s, Pick(Selector, id));
  }

  /**
   * Giving up on a call the daemon has not agreed to yet: safe exactly when the call asks for
   * nothing, or for the project the mirror is on.
   */
  lemma LossBeforeAgreementIsSafeIff(s: State, k: nat)
    requires Inv(s) && At(s, k, Sent) && Truthy(s.mirror) && forall j :: !At(s, j, Accepted)
    ensures var t := Apply(s, GivesUp(k));
            (forall es :: DisciplinedRun(t, es) ==> Honest(After(t, es)))
              <==> s.selects[k].target == "" || s.mirror == Some(s.selects[k].target)
  {
    DisciplineIsExact(s, GivesUp(k));
  }

  /**
   * Giving up on the only call the daemon has agreed to: safe exactly when the mirror is on its
   * project and the picture is current, or a confirmed switch still has its re-read to order.
   */
  lemma LossAfterAgreementIsSafeIff(s: State, k: nat)
    requires Inv(s) && At(s, k, Accepted) && Truthy(s.mirror) && forall j :: At(s, j, Accepted) ==> j == k
    ensures var t := Apply(s, GivesUp(k));
            (forall es :: DisciplinedRun(t, es) ==> Honest(After(t, es)))
              <==> s.mirror == Some(s.selects[k].target) && (Current(s) || exists j :: At(s, j, Confirmed))
  {
    DisciplineIsExact(s, GivesUp(k));
  }

  /** Once something is chosen, the daemon may be moved by others exactly to where it is. */
  lemma MoveIsSafeIffItStays(s: State, place: Option<string>)
    requires Inv(s) && Truthy(s.mirror)
    ensures var t := Apply(s, DaemonMoves(place));
            (forall es :: DisciplinedRun(t, es) ==> Honest(After(t, es))) <==> place == s.active
  {
    DisciplineIsExact(s, DaemonMoves(place));
  }
}
