/** After a switch: when the screen is settled for good, and the exact conditions under which it never is. */
module SwitchQuiet {
  import opened Text
  import opened Bells
  import opened Switch
  import opened SwitchSafety

  /** Polls, refreshes and bells: everything but a switch and the daemon moving by itself. */
  predicate Reads(e: Event) {
    || e.ReadDue? || e.Refresh? || e.Serves? || e.BodyEnds? || e.Lands? || e.ReadFails? || e.ReadRetries? || e.Rings?
  }

  predicate OnlyReads(es: seq<Event>) {
    forall i :: 0 <= i < |es| ==> Reads(es[i])
  }

  // ------------------------------------------------- calm

  /** No switch to another project is started, and nothing else moves the daemon. */
  predicate Stays(project: Option<string>, e: Event) {
    !e.DaemonMoves? && (e.Pick? ==> e.id == "" || project == Some(e.id))
  }

  predicate AllStay(project: Option<string>, es: seq<Event>) {
    forall i :: 0 <= i < |es| ==> Stays(project, es[i])
  }

  /** No call still to be answered asks for another project. */
  ghost predicate CallsAgree(s: State) {
    && (forall k :: At(s, k, Sent) ==> Pointless(s, s.selects[k].target))
    && (forall k :: At(s, k, Accepted) ==> s.active == Some(s.selects[k].target))
  }

  /** Every body minted since `n` asked about the mirrored project and is answered about it. */
  ghost predicate BodiesAgree(n: nat, s: State) {
    forall b :: b in s.bodies && n <= b ==>
      s.bodies[b].narrow == s.mirror && (!s.bodies[b].phase.Asked? ==> Told(s.bodies[b], s.mirror))
  }

  /** Daemon and mirror are on one project, and so is everything in flight since `n`. */
  ghost predicate Calm(n: nat, s: State) {
    && WellFormed(s) && Truthy(s.mirror) && s.active == s.mirror && n <= s.minted
    && CallsAgree(s) && BodiesAgree(n, s)
  }

  ghost predicate Settled(n: nat, s: State) {
    Calm(n, s) && s.cache.Some? && Label(s) == s.mirror && (s.running.Some? ==> n <= s.running.value)
  }

  /** A body minted since `n` has landed: question, answer and mirror are about one project. */
  ghost predicate Renewed(n: nat, s: State) {
    Settled(n, s) && s.cache.value.narrow == s.mirror
  }

  /** The read that lands is a call of the read function minted since `n`. */
  predicate LandsSince(n: nat, s: State, e: Event) {
    e.Lands? && CanLand(s) && n <= s.running.value
  }

  /** What one step does to the calls: it takes one on, moves one, or leaves them. */
  lemma CallsMoveOneByOne(s: State, e: Event)
    ensures var t := Apply(s, e);
            forall k, stage :: At(t, k, stage) ==>
              || (At(s, k, stage) && t.selects[k].target == s.selects[k].target)
              || (stage == Sent && e.Pick? && t.selects[k].target == e.id)
              || (stage == Accepted && At(s, k, Sent) && t.active == Some(t.selects[k].target))
              || stage == Confirmed || stage == Refreshing
  {
  }

  /** And to the choice: only what is asked for by a call, or seeded, gets there. */
  lemma ChoiceStaysCalm(n: nat, s: State, e: Event)
    requires Calm(n, s) && Stays(s.mirror, e)
    ensures Apply(s, e).mirror == s.mirror && Apply(s, e).active == s.active
  {
  }

  lemma CallsStayCalm(n: nat, s: State, e: Event)
    requires Calm(n, s) && Stays(s.mirror, e)
    ensures Apply(s, e).mirror == s.mirror && Apply(s, e).active == s.active && CallsAgree(Apply(s, e))
  {
    ChoiceStaysCalm(n, s, e);
    CallsMoveOneByOne(s, e);
    hide Apply;
  }

  lemma BodiesStayCalm(n: nat, s: State, e: Event)
    requires Calm(n, s) && Stays(s.mirror, e)
    ensures BodiesAgree(n, Apply(s, e)) && n <= Apply(s, e).minted
  {
    CallsStayCalm(n, s, e);
  }

  lemma PictureStaysCalm(n: nat, s: State, e: Event)
    requires Calm(n, s) && Calm(n, Apply(s, e)) && Apply(s, e).mirror == s.mirror
    ensures var t := Apply(s, e);
            && (Settled(n, s) ==> Settled(n, t))
            && (Renewed(n, s) ==> Renewed(n, t))
            && (LandsSince(n, s, e) ==> Renewed(n, t))
  {
    if e.Rings? && s.cache.Some? { OneBell(s.cache.value.picture, e.frame); }
  }

  lemma CalmStep(n: nat, s: State, e: Event)
    requires Calm(n, s) && Stays(s.mirror, e)
    ensures var t := Apply(s, e);
            && Calm(n, t) && t.mirror == s.mirror
            && (Settled(n, s) ==> Settled(n, t))
            && (Renewed(n, s) ==> Renewed(n, t))
            && (LandsSince(n, s, e) ==> Renewed(n, t))
  {
    CallsStayCalm(n, s, e);
    BodiesStayCalm(n, s, e);
    StepIsWellFormed(s, e);
    PictureStaysCalm(n, s, e);
  }

  lemma {:induction false} CalmRun(n: nat, s: State, es: seq<Event>)
    requires Calm(n, s) && AllStay(s.mirror, es)
    ensures var t := After(s, es);
            && Calm(n, t) && t.mirror == s.mirror
            && (Settled(n, s) ==> Settled(n, t))
            && (Renewed(n, s) ==> Renewed(n, t))
  {
    if es == [] {
    } else {
      var front := es[..|es| - 1];
      forall i | 0 <= i < |front| ensures Stays(s.mirror, front[i]) { assert front[i] == es[i]; }
      CalmRun(n, s, front);
      CalmStep(n, After(s, front), es[|es| - 1]);
    }
  }

  lemma SettledIsShown(n: nat, s: State)
    requires Settled(n, s)
    ensures Waits(s) <==> Switching(s)
  {
  }

  lemma SplitRun(s: State, es: seq<Event>, i: nat)
    requires i < |es|
    ensures After(s, es) == After(Apply(After(s, es[..i]), es[i]), es[i + 1..])
  {
    assert es == es[..i] + es[i..] && es[i..][1..] == es[i + 1..];
    AfterSum(s, es[..i], es[i..]);
    AfterFirst(After(s, es[..i]), es[i..]);
  }

  /** From calm, the first landing of a read minted since settles everything that follows. */
  lemma {:induction false} LandingSettles(n: nat, s: State, es: seq<Event>, i: nat)
    requires Calm(n, s) && AllStay(s.mirror, es) && i < |es| && LandsSince(n, After(s, es[..i]), es[i])
    ensures Renewed(n, After(s, es)) && After(s, es).mirror == s.mirror
  {
    var rest := es[i + 1..];
    forall j | 0 <= j < |rest| ensures Stays(s.mirror, rest[j]) { assert rest[j] == es[j + i + 1]; }
    SplitRun(s, es, i);
    CalmRun(n, s, es[..i]);
    CalmStep(n, After(s, es[..i]), es[i]);
    CalmRun(n, Apply(After(s, es[..i]), es[i]), rest);
  }

  lemma ConfirmedIsCalm(s: State, k: nat)
    requires Inv(s) && At(s, k, Accepted)
    ensures var t := Apply(s, Confirms(k));
            Calm(t.minted, t) && t.mirror == Some(s.selects[k].target)
  {
    var t := Apply(s, Confirms(k));
    assert forall j, stage :: j != k ==> At(t, j, stage) == At(s, j, stage);
    assert At(t, k, Confirmed);
  }

  /**
   * After a confirmed switch. A disciplined run has come to the answer of a select, and the
   * mirror has just moved. Whatever follows, as long as no switch to another project is started:
   * the first read started since that lands makes the question, the picture's label and the
   * mirror one project, and from then on the screen is covered only while a switch is pending.
   * No run of polls, refreshes, failures and bells, however long, covers it again.
   */
  lemma {:induction false} FreshReadingSettlesTheScreen(
      active: Option<string>, before: seq<Event>, k: nat, es: seq<Event>, i: nat)
    requires DisciplinedRun(Opening(active), before) && At(After(Opening(active), before), k, Accepted)
    requires var s := Apply(After(Opening(active), before), Confirms(k));
             AllStay(s.mirror, es) && i < |es| && LandsSince(s.minted, After(s, es[..i]), es[i])
    ensures var s := Apply(After(Opening(active), before), Confirms(k));
            var t := After(s, es);
            && t.cache.Some? && Label(t) == t.cache.value.narrow == t.mirror == s.mirror
            && s.mirror == Some(After(Opening(active), before).selects[k].target)
            && (Waits(t) <==> Switching(t))
  {
    RunKeeps(Opening(active), before);
    ConfirmedIsCalm(After(Opening(active), before), k);
    var s := Apply(After(Opening(active), before), Confirms(k));
    LandingSettles(s.minted, s, es, i);
    SettledIsShown(s.minted, After(s, es));
  }

  /** The re-read the switch orders is such a read. */
  lemma OrderedReadIsFresh(n: nat, s: State, k: nat)
    requires WellFormed(s) && n <= s.minted && At(s, k, Confirmed) && s.cache.Some? && Truthy(s.mirror)
    ensures var t := Apply(s, Orders(k));
            t.running.Some? && n <= t.running.value && t.bodies[t.running.value] == Body(s.mirror, Asked)
  {
  }

  /**
   * And so is any read started later: the same from every moment at which all calls in flight
   * agree with the mirror.
   */
  lemma {:induction false} LaterReadingSettlesTheScreen(
      active: Option<string>, before: seq<Event>, es: seq<Event>, i: nat)
    requires DisciplinedRun(Opening(active), before)
    requires var s := After(Opening(active), before);
             Truthy(s.mirror) && forall k :: Unanswered(s, k) ==> s.mirror == Some(s.selects[k].target)
    requires var s := After(Opening(active), before);
             AllStay(s.mirror, es) && i < |es| && LandsSince(s.minted, After(s, es[..i]), es[i])
    ensures var s := After(Opening(active), before);
            var t := After(s, es);
            && t.cache.Some? && Label(t) == t.cache.value.narrow == t.mirror == s.mirror
            && (Waits(t) <==> Switching(t))
  {
    RunKeeps(Opening(active), before);
    var s := After(Opening(active), before);
    assert Calm(s.minted, s);
    LandingSettles(s.minted, s, es, i);
    SettledIsShown(s.minted, After(s, es));
  }

  // ------------------------------------------------- the next reading is the truth

  predicate StaysSilent(told: Picture, e: Event) {
    !e.Accepts? && !e.DaemonMoves? && !e.Rings? && (e.Serves? ==> e.told == told)
  }

  /** The daemon is quiet, tells one and the same picture, and the channel is silent. */
  predicate Silent(told: Picture, es: seq<Event>) {
    forall i :: 0 <= i < |es| ==> StaysSilent(told, es[i])
  }

  ghost predicate Truthful(n: nat, truth: Picture, s: State) {
    && WellFormed(s) && n <= s.minted && truth.activeProject == s.active
    && forall b :: b in s.bodies && n <= b && !s.bodies[b].phase.Asked? ==> s.bodies[b].phase.picture == truth
  }

  ghost predicate Shown(n: nat, truth: Picture, s: State) {
    && Truthful(n, truth, s) && s.cache.Some? && s.cache.value.picture == truth
    && (s.running.Some? ==> n <= s.running.value)
  }

  lemma BodiesStayTruthful(n: nat, told: Picture, s: State, e: Event)
    requires var truth := told.(activeProject := s.active); Truthful(n, truth, s) && StaysSilent(told, e)
    ensures Truthful(n, told.(activeProject := s.active), Apply(s, e))
  {
    StepIsWellFormed(s, e);
  }

  lemma TruthfulStep(n: nat, told: Picture, s: State, e: Event)
    requires var truth := told.(activeProject := s.active); Truthful(n, truth, s) && StaysSilent(told, e)
    ensures var t, truth := Apply(s, e), told.(activeProject := s.active);
            && Truthful(n, truth, t)
            && (Shown(n, truth, s) ==> Shown(n, truth, t))
            && (LandsSince(n, s, e) ==> Shown(n, truth, t))
  {
    BodiesStayTruthful(n, told, s, e);
  }

  lemma {:induction false} TruthfulRun(n: nat, told: Picture, s: State, es: seq<Event>)
    requires Truthful(n, told.(activeProject := s.active), s) && Silent(told, es)
    ensures var t, truth := After(s, es), told.(activeProject := s.active);
            Truthful(n, truth, t) && (Shown(n, truth, s) ==> Shown(n, truth, t))
  {
    if es == [] {
    } else {
      var front := es[..|es| - 1];
      forall i | 0 <= i < |front| ensures StaysSilent(told, front[i]) { assert front[i] == es[i]; }
      TruthfulRun(n, told, s, front);
      TruthfulStep(n, told, After(s, front), es[|es| - 1]);
    }
  }

  /**
   * The next reading is the truth. After any run at all, whatever bells, crossed switches and
   * lost answers had left in the cache and the mirror: once the channel is silent and the daemon
   * keeps telling one picture, the first read started from then on that lands makes the cached
   * picture equal to it, for good.
   */
  lemma {:induction false} NextReadingIsTheTruth(
      active: Option<string>, before: seq<Event>, told: Picture, es: seq<Event>, i: nat)
    requires Silent(told, es) && i < |es|
    requires var s := After(Opening(active), before); LandsSince(s.minted, After(s, es[..i]), es[i])
    ensures var s := After(Opening(active), before);
            var t := After(s, es);
            t.cache.Some? && t.cache.value.picture == told.(activeProject := s.active) && t.active == s.active
  {
    RunIsWellFormed(Opening(active), before);
    var s := After(Opening(active), before);
    var rest := es[i + 1..];
    forall j | 0 <= j < |rest| ensures StaysSilent(told, rest[j]) { assert rest[j] == es[j + i + 1]; }
    SplitRun(s, es, i);
    TruthfulRun(s.minted, told, s, es[..i]);
    TruthfulStep(s.minted, told, After(s, es[..i]), es[i]);
    TruthfulRun(s.minted, told, Apply(After(s, es[..i]), es[i]), rest);
  }

  // ------------------------------------------------- runs built step by step

  lemma Then(s: State, es: seq<Event>, e: Event)
    ensures After(s, es + [e]) == Apply(After(s, es), e)
  {
    assert (es + [e])[..|es|] == es;
  }

  /** One whole undisturbed poll: it starts, is served, ends and lands. */
  function Poll(b: nat, told: Picture): seq<Event> {
    [ReadDue, Serves(b, told), BodyEnds(b), Lands]
  }

  lemma AfterPoll(s: State, told: Picture)
    requires s.running.None? && Truthy(s.mirror)
    ensures var t := After(s, Poll(s.minted, told));
            && t.cache == Some(Reading(told.(activeProject := s.active), s.mirror))
            && t.mirror == s.mirror && t.active == s.active && t.selects == s.selects
            && t.running.None? && !t.readFailed
  {
    var b := s.minted;
    Then(s, [], ReadDue);
    Then(s, [ReadDue], Serves(b, told));
    Then(s, [ReadDue, Serves(b, told)], BodyEnds(b));
    Then(s, [ReadDue, Serves(b, told), BodyEnds(b)], Lands);
    assert [ReadDue] + [Serves(b, told)] + [BodyEnds(b)] + [Lands] == Poll(b, told);
  }

  lemma {:induction false} ReadsStartNoSwitch(s: State, es: seq<Event>)
    requires OnlyReads(es)
    ensures After(s, es).selects == s.selects
  {
    if es == [] {
    } else {
      var front := es[..|es| - 1];
      forall i | 0 <= i < |front| ensures Reads(front[i]) { assert front[i] == es[i]; }
      ReadsStartNoSwitch(s, front);
    }
  }

  /**
   * When ordinary polling hides a live screen: from a quiet window no sequence of polls,
   * refreshes and bells ever covers the screen exactly when the picture shown, the mirror and
   * the daemon are all about one project.
   */
  lemma PollingHidesNothing(s: State)
    requires WellFormed(s) && s.selects == map[] && s.running.None? && s.cache.Some? && Truthy(s.mirror)
    ensures (forall es :: OnlyReads(es) ==> !Waits(After(s, es))) <==> Label(s) == s.mirror && s.active == s.mirror
  {
    if Label(s) == s.mirror && s.active == s.mirror {
      forall es | OnlyReads(es) ensures !Waits(After(s, es)) {
        CalmRun(s.minted, s, es);
        SettledIsShown(s.minted, After(s, es));
        ReadsStartNoSwitch(s, es);
      }
    } else if Label(s) != s.mirror {
      Then(s, [], ReadDue);
      assert OnlyReads([ReadDue]) && Waits(After(s, [ReadDue]));
    } else {
      var poll := Poll(s.minted, s.cache.value.picture);
      AfterPoll(s, s.cache.value.picture);
      Then(s, poll, ReadDue);
      assert OnlyReads(poll + [ReadDue]) && Waits(After(s, poll + [ReadDue]));
    }
  }
}
