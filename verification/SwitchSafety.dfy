/** What an uncovered screen shows, in every run of the project switch. */
module SwitchSafety {
  import opened Text
  import opened Bells
  import opened Switch

  // ------------------------------------------------- the invariant

  /** The call has not been answered to the window yet. */
  ghost predicate Unanswered(s: State, k: nat) {
    At(s, k, Sent) || At(s, k, Accepted)
  }

  /** The daemon has moved, but the re-read that shows it is not ordered yet. */
  ghost predicate Unsettled(s: State) {
    exists k :: At(s, k, Accepted) || At(s, k, Confirmed)
  }

  ghost predicate Told(b: Body, project: Option<string>) {
    !b.phase.Asked? && b.phase.picture.activeProject == project
  }

  ghost predicate WellFormed(s: State) {
    && (forall b :: b in s.bodies ==> b < s.minted)
    && (forall k :: k in s.selects ==> k < s.minted)
    && (s.running.Some? ==> s.running.value in s.bodies)
  }

  /** Agreeing to a call for this project changes nothing at the daemon. */
  predicate Pointless(s: State, target: string) {
    target == "" || s.active == Some(target)
  }

  /** A call the window gave up on may still be agreed to, but only for the project the daemon is on. */
  ghost predicate Abandoned(s: State, k: nat) {
    At(s, k, Sent) && !s.selects[k].waiting && Pointless(s, s.selects[k].target)
  }

  /** Two switches that cannot move the daemon to two places; it never agrees to an empty name. */
  predicate Compatible(a: string, b: string) {
    a == b || a == "" || b == ""
  }

  ghost predicate Calls(s: State) {
    && (forall k :: k in s.selects ==> s.cache.Some? && (s.selects[k].waiting || Abandoned(s, k)))
    && (forall j, k :: Unanswered(s, j) && Unanswered(s, k) ==> Compatible(s.selects[j].target, s.selects[k].target))
    && (forall k :: At(s, k, Accepted) ==> s.active == Some(s.selects[k].target) && s.selects[k].target != "")
  }

  /** The mirror is the daemon's own choice, or empty before anything was chosen. */
  ghost predicate MirrorAgrees(s: State) {
    && (s.mirror.Some? ==> Truthy(s.mirror))
    && (Truthy(s.mirror) && (forall k :: !At(s, k, Accepted)) ==> s.active == s.mirror)
    && (forall k :: k in s.selects && !Unanswered(s, k) ==> Truthy(s.mirror))
  }

  /** The body was told a project. */
  predicate Names(s: State, b: nat) {
    b in s.bodies && !s.bodies[b].phase.Asked? && Truthy(s.bodies[b].phase.picture.activeProject)
  }

  ghost predicate NamesAgree(s: State) {
    forall b :: Names(s, b) ==> s.bodies[b].phase.picture.activeProject == s.active
  }

  /** While nothing is chosen, an answer in flight names no project, or the daemon's. */
  ghost predicate SeedsAgree(s: State) {
    !Truthy(s.mirror) ==>
      && (forall b :: Names(s, b) ==> s.bodies[b].phase.Answered?)
      && ((exists k :: At(s, k, Accepted)) || NamesAgree(s))
      && !Truthy(Label(s))
  }

  /** The answer under way and the cached picture are about the daemon's project, as far as nothing newer is coming. */
  ghost predicate Current(s: State) {
    && (s.running.Some? && s.running.value in s.bodies && !s.bodies[s.running.value].phase.Asked? ==>
          Told(s.bodies[s.running.value], s.active))
    && (s.cache.Some? ==> Label(s) == s.active || s.running.Some? || s.readFailed)
  }

  /** A call of the read function other than the one under way that can still seed an empty mirror. */
  predicate Stray(s: State, b: nat) {
    b in s.bodies && s.running != Some(b) && (s.bodies[b].phase.Asked? || Names(s, b))
  }

  ghost predicate PictureAgrees(s: State) {
    || Unsettled(s)
    || Current(s)
    || (!Truthy(s.mirror) && (!Truthy(s.active) || forall b :: !Stray(s, b)))
  }

  ghost predicate Inv(s: State) {
    WellFormed(s) && Calls(s) && MirrorAgrees(s) && SeedsAgree(s) && PictureAgrees(s)
  }

  /** A switch may start beside the calls still to be answered if none of them is to another project. */
  ghost predicate HarmlessPick(s: State, door: Door, id: string) {
    CanPick(s, door) ==> forall k :: Unanswered(s, k) ==> Compatible(s.selects[k].target, id)
  }

  /**
   * Giving up on a call does no harm: before the daemon agreed, when the call asks for nothing
   * new; after it agreed, when another agreed call will still be answered, or when the mirror is
   * on that project already or can only be seeded with it, and the picture is about it, or its
   * correction is coming.
   */
  ghost predicate HarmlessLoss(s: State, k: nat) {
    && (At(s, k, Sent) ==> Pointless(s, s.selects[k].target))
    && (At(s, k, Accepted) && (forall j :: At(s, j, Accepted) ==> j == k) ==>
          && (if Truthy(s.mirror) then s.mirror == Some(s.selects[k].target) else NamesAgree(s))
          && ((exists j :: At(s, j, Confirmed)) || Current(s) || (!Truthy(s.mirror) && forall b :: !Stray(s, b))))
  }

  /**
   * The daemon may move by itself when it stays where it was, or while nothing is chosen, no
   * call agreed to and none given up on can matter, and no answer in flight tells another story.
   */
  ghost predicate HarmlessMove(s: State, place: Option<string>) {
    var t := s.(active := place);
    place == s.active || (
      && !Truthy(s.mirror) && (forall k :: !At(s, k, Accepted))
      && (forall k :: At(s, k, Sent) && !s.selects[k].waiting ==> Pointless(t, s.selects[k].target))
      && NamesAgree(t)
      && (!Truthy(place) || Current(t) || forall b :: !Stray(s, b)))
  }

  /**
   * What the guarantee asks of a run: no switch is started while another one, to a different
   * project, is still to be answered; no answer is lost that mattered; and, once something is
   * chosen, nothing but the window's selects moves the daemon.
   */
  ghost predicate Disciplined(s: State, e: Event) {
    && (e.Pick? ==> HarmlessPick(s, e.door, e.id))
    && (e.GivesUp? ==> HarmlessLoss(s, e.call))
    && (e.DaemonMoves? ==> HarmlessMove(s, e.place))
  }

  ghost predicate DisciplinedRun(s: State, es: seq<Event>) {
    forall i :: 0 <= i < |es| ==> Disciplined(After(s, es[..i]), es[i])
  }

  // ------------------------------------------------- every step keeps it

  lemma StepIsWellFormed(s: State, e: Event)
    requires WellFormed(s)
    ensures WellFormed(Apply(s, e))
  {
  }

  lemma {:induction false} RunIsWellFormed(s: State, es: seq<Event>)
    requires WellFormed(s)
    ensures WellFormed(After(s, es))
  {
    if es == [] {
    } else {
      RunIsWellFormed(s, es[..|es| - 1]);
      StepIsWellFormed(After(s, es[..|es| - 1]), es[|es| - 1]);
    }
  }

  lemma StartKeeps(s: State)
    requires Inv(s)
    ensures Inv(StartBody(s)) && StartBody(s).running.Some?
  {
    var t := StartBody(s);
    assert t.selects == s.selects && t.cache == s.cache;
    assert forall k, stage :: At(t, k, stage) == At(s, k, stage);
  }

  lemma ServesKeeps(s: State, e: Event)
    requires Inv(s) && e.Serves?
    ensures Inv(Apply(s, e))
  {
    var t := Apply(s, e);
    assert t.selects == s.selects && t.cache == s.cache && t.active == s.active;
    assert forall k, stage :: At(t, k, stage) == At(s, k, stage);
    assert forall b :: Stray(t, b) ==> Stray(s, b);
  }

  /** An answer that seeds the mirror finds nothing older on its way to the cache. */
  lemma SeedIsCurrent(s: State, b: nat)
    requires Inv(s) && !Truthy(s.mirror) && Names(s, b) && !Unsettled(s)
    ensures Current(s)
  {
    assert s.bodies[b].phase.picture.activeProject == s.active;
    if s.running != Some(b) { assert Stray(s, b); }
  }

  lemma BodyEndKeeps(s: State, b: nat)
    requires Inv(s)
    ensures Inv(Apply(s, BodyEnds(b)))
  {
    var t := Apply(s, BodyEnds(b));
    assert t.selects == s.selects && t.cache == s.cache && t.active == s.active;
    assert forall k, stage :: At(t, k, stage) == At(s, k, stage);
    assert forall c :: Stray(t, c) ==> Stray(s, c);
    if Truthy(t.mirror) && !Truthy(s.mirror) && !Unsettled(s) { SeedIsCurrent(s, b); }
  }

  lemma LandsKeeps(s: State)
    requires Inv(s)
    ensures Inv(Apply(s, Lands))
  {
    var t := Apply(s, Lands);
    assert t.selects == s.selects && t.active == s.active;
    assert forall k, stage :: At(t, k, stage) == At(s, k, stage);
    assert forall b :: Stray(t, b) ==> Stray(s, b);
  }

  lemma FailureKeeps(s: State, b: nat)
    requires Inv(s)
    ensures Inv(Apply(s, ReadFails(b)))
  {
    var t := Apply(s, ReadFails(b));
    assert t.selects == s.selects && t.active == s.active;
    assert forall k, stage :: At(t, k, stage) == At(s, k, stage);
    assert forall c :: Stray(t, c) ==> Stray(s, c);
  }

  lemma RetryKeeps(s: State)
    requires Inv(s)
    ensures Inv(Apply(s, ReadRetries))
  {
    if s.running.Some? && s.running.value in s.bodies && !s.bodies[s.running.value].phase.Done? {
      var dropped := s.(bodies := Without(s.bodies, s.running.value));
      var t := StartBody(dropped);
      assert t == Apply(s, ReadRetries) && t.selects == s.selects && t.active == s.active && t.cache == s.cache;
      assert forall k, stage :: At(t, k, stage) == At(s, k, stage);
    }
  }

  lemma RingKeeps(s: State, frame: Frame)
    requires Inv(s)
    ensures Inv(Apply(s, Rings(frame)))
  {
    var t := Apply(s, Rings(frame));
    if s.cache.Some? { OneBell(s.cache.value.picture, frame); }
    assert Label(t) == Label(s);
    assert forall k, stage :: At(t, k, stage) == At(s, k, stage);
    assert forall b :: Stray(t, b) == Stray(s, b);
  }

  /** What is in flight to the cache is not touched by what happens to calls that matter no more, or not yet. */
  lemma CallsApart(s: State, t: State)
    requires t == s.(selects := t.selects, minted := t.minted)
    requires forall k :: At(s, k, Accepted) ==> At(t, k, Accepted)
    requires forall k :: At(s, k, Confirmed) ==> At(t, k, Confirmed)
    ensures SeedsAgree(s) ==> SeedsAgree(t)
    ensures PictureAgrees(s) ==> PictureAgrees(t)
  {
    assert forall b :: Stray(t, b) == Stray(s, b);
  }

  lemma NewCallIsSent(s: State, t: State, call: Select)
    requires WellFormed(s) && call.stage.Sent?
    requires t == s.(selects := s.selects[s.minted := call], minted := s.minted + 1)
    ensures WellFormed(t)
    ensures forall k, stage :: At(t, k, stage) <==> if k == s.minted then stage == Sent else At(s, k, stage)
  {
  }

  lemma NewCallsAgree(s: State, t: State, call: Select)
    requires Calls(s) && s.cache.Some? && call.waiting && t.active == s.active && t.cache == s.cache
    requires t.selects == s.selects[s.minted := call]
    requires forall k, stage :: At(t, k, stage) <==> if k == s.minted then stage == Sent else At(s, k, stage)
    requires forall k :: Unanswered(s, k) ==> Compatible(s.selects[k].target, call.target)
    ensures Calls(t)
  {
    assert forall k :: k != s.minted ==> Unanswered(t, k) == Unanswered(s, k);
    assert forall k :: k != s.minted && Abandoned(s, k) ==> Abandoned(t, k);
  }

  lemma NewCallKeeps(s: State, call: Select)
    requires Inv(s) && s.cache.Some? && call.stage.Sent? && call.waiting
    requires forall k :: Unanswered(s, k) ==> Compatible(s.selects[k].target, call.target)
    ensures Inv(s.(selects := s.selects[s.minted := call], minted := s.minted + 1))
  {
    hide SeedsAgree, PictureAgrees;
    var t := s.(selects := s.selects[s.minted := call], minted := s.minted + 1);
    NewCallIsSent(s, t, call);
    CallsApart(s, t);
    NewCallsAgree(s, t, call);
  }

  lemma PickKeeps(s: State, e: Event)
    requires Inv(s) && e.Pick? && Disciplined(s, e)
    ensures Inv(Apply(s, e))
  {
    hide Inv;
    if CanPick(s, e.door) { NewCallKeeps(s, Select(e.door, e.id, Sent, true)); }
  }

  lemma AcceptKeeps(s: State, k: nat)
    requires Inv(s) && At(s, k, Sent) && s.selects[k].waiting
    ensures Inv(Apply(s, Accepts(k)))
  {
    var t := Apply(s, Accepts(k));
    if t != s {
      assert forall j, stage :: j != k ==> At(t, j, stage) == At(s, j, stage);
      assert At(t, k, Accepted);
    }
  }

  /** A call that is neither agreed to nor mirrored without its re-read may go. */
  lemma CallGoneKeeps(s: State, k: nat)
    requires Inv(s) && !At(s, k, Accepted) && !At(s, k, Confirmed)
    ensures Inv(s.(selects := Without(s.selects, k)))
  {
    hide SeedsAgree, PictureAgrees;
    var t := s.(selects := Without(s.selects, k));
    assert forall j, stage :: At(t, j, stage) <==> j != k && At(s, j, stage);
    CallsApart(s, t);
  }

  lemma LateAcceptKeeps(s: State, k: nat)
    requires Inv(s) && At(s, k, Sent) && !s.selects[k].waiting
    ensures Inv(Apply(s, Accepts(k)))
  {
    assert Abandoned(s, k);
    if s.selects[k].target != "" {
      assert Apply(s, Accepts(k)) == s.(selects := Without(s.selects, k));
      CallGoneKeeps(s, k);
    }
  }

  lemma ConfirmKeeps(s: State, k: nat)
    requires Inv(s)
    ensures Inv(Apply(s, Confirms(k)))
  {
    var t := Apply(s, Confirms(k));
    if t != s {
      assert forall j, stage :: j != k ==> At(t, j, stage) == At(s, j, stage);
      assert At(t, k, Confirmed) && At(s, k, Accepted);
    }
  }

  lemma OrderKeeps(s: State, k: nat)
    requires Inv(s)
    ensures Inv(Apply(s, Orders(k)))
  {
    if At(s, k, Confirmed) {
      var t := Apply(s, Orders(k));
      assert forall j, stage :: j != k ==> At(t, j, stage) == At(s, j, stage);
      assert At(t, k, Refreshing);
    }
  }

  lemma UnagreedLossKeeps(s: State, k: nat)
    requires Inv(s) && HarmlessLoss(s, k) && At(s, k, Sent)
    ensures Inv(Apply(s, GivesUp(k)))
  {
    hide SeedsAgree, PictureAgrees;
    var t := Apply(s, GivesUp(k));
    assert forall j, stage :: At(t, j, stage) == At(s, j, stage);
    CallsApart(s, t);
  }

  lemma AgreedLossKeeps(s: State, k: nat)
    requires Inv(s) && HarmlessLoss(s, k) && At(s, k, Accepted)
    ensures Inv(Apply(s, GivesUp(k)))
  {
    var t := Apply(s, GivesUp(k));
    assert forall j, stage :: At(t, j, stage) <==> j != k && At(s, j, stage);
    assert forall b :: Stray(t, b) == Stray(s, b);
  }

  lemma LossKeeps(s: State, k: nat)
    requires Inv(s) && HarmlessLoss(s, k)
    ensures Inv(Apply(s, GivesUp(k)))
  {
    if At(s, k, Sent) { UnagreedLossKeeps(s, k); } else if At(s, k, Accepted) { AgreedLossKeeps(s, k); }
  }

  lemma MoveKeeps(s: State, place: Option<string>)
    requires Inv(s) && HarmlessMove(s, place)
    ensures Inv(Apply(s, DaemonMoves(place)))
  {
    var t := Apply(s, DaemonMoves(place));
    if place == s.active {
      assert t == s;
    } else {
      assert forall k, stage :: At(t, k, stage) == At(s, k, stage);
      assert forall b :: Stray(t, b) == Stray(s, b);
    }
  }

  lemma CloseKeeps(s: State, e: Event)
    requires Inv(s) && (e.Refuses? || e.Ends?)
    ensures Inv(Apply(s, e))
  {
    if Apply(s, e) != s { CallGoneKeeps(s, e.call); }
  }

  lemma StepKeeps(s: State, e: Event)
    requires Inv(s) && Disciplined(s, e)
    ensures Inv(Apply(s, e))
  {
    match e {
      case ReadDue => StartKeeps(s);
      case Refresh => StartKeeps(s);
      case Serves(_, _) => ServesKeeps(s, e);
      case BodyEnds(b) => BodyEndKeeps(s, b);
      case Lands => LandsKeeps(s);
      case ReadFails(b) => FailureKeeps(s, b);
      case ReadRetries => RetryKeeps(s);
      case Pick(_, _) => PickKeeps(s, e);
      case Accepts(k) =>
        if At(s, k, Sent) {
          if s.selects[k].waiting { AcceptKeeps(s, k); } else { LateAcceptKeeps(s, k); }
        }
      case Confirms(k) => ConfirmKeeps(s, k);
      case Orders(k) => OrderKeeps(s, k);
      case Refuses(_) => CloseKeeps(s, e);
      case Ends(_) => CloseKeeps(s, e);
      case GivesUp(k) => LossKeeps(s, k);
      case DaemonMoves(place) => MoveKeeps(s, place);
      case Rings(frame) => RingKeeps(s, frame);
    }
  }

  lemma {:induction false} RunKeeps(s: State, es: seq<Event>)
    requires Inv(s) && DisciplinedRun(s, es)
    ensures Inv(After(s, es))
  {
    if es == [] {
    } else {
      var front := es[..|es| - 1];
      forall i | 0 <= i < |front| ensures Disciplined(After(s, front[..i]), front[i]) {
        assert front[..i] == es[..i];
      }
      RunKeeps(s, front);
      StepKeeps(After(s, front), es[|es| - 1]);
    }
  }

  // ------------------------------------------------- what is on the glass

  lemma NothingInFlight(s: State)
    requires Calls(s) && !Switching(s)
    ensures forall k, stage :: At(s, k, stage) ==> stage.Sent? && Abandoned(s, k)
  {
  }

  lemma UncoveredInInv(s: State)
    requires Inv(s) && !Waits(s)
    ensures s.cache.Some? && !Switching(s)
    ensures Truthy(s.mirror) ==>
              s.active == s.mirror && (Label(s) == s.mirror || (s.readFailed && s.running.None?))
    ensures !Truthy(s.mirror) ==> s.mirror.None? && !Truthy(Label(s))
  {
    NothingInFlight(s);
  }

  /**
   * Screen safety. In every disciplined run, whatever interleaves and however the mirror was set,
   * an uncovered screen has a picture, no switch is pending, and the picture is labelled with the
   * mirrored project unless the last read that ended has failed; before anything is chosen it
   * names no project.
   */
  lemma {:induction false} UncoveredScreenIsTheMirrored(active: Option<string>, es: seq<Event>)
    requires DisciplinedRun(Opening(active), es)
    ensures var s := After(Opening(active), es);
            !Waits(s) ==>
              && s.cache.Some? && !Switching(s)
              && (Truthy(s.mirror) ==>
                    s.active == s.mirror && (Label(s) == s.mirror || (s.readFailed && s.running.None?)))
              && (!Truthy(s.mirror) ==> s.mirror.None? && !Truthy(Label(s)))
  {
    RunKeeps(Opening(active), es);
    var s := After(Opening(active), es);
    if !Waits(s) { UncoveredInInv(s); }
  }

  // ------------------------------------------------- one door is enough

  /** Every switch is started at the door, and no call is given up before the daemon agreed to it. */
  ghost predicate ThroughDoor(s: State, e: Event, door: Door) {
    && (e.Pick? ==> e.door == door)
    && (e.GivesUp? ==> !At(s, e.call, Sent) && HarmlessLoss(s, e.call))
    && (e.DaemonMoves? ==> HarmlessMove(s, e.place))
  }

  ghost predicate RunThroughDoor(s: State, es: seq<Event>, door: Door) {
    forall i :: 0 <= i < |es| ==> ThroughDoor(After(s, es[..i]), es[i], door)
  }

  ghost predicate CallsOf(s: State, door: Door) {
    forall k :: k in s.selects ==> s.selects[k].door == door && s.selects[k].waiting
  }

  lemma DoorIsGuarded(s: State, door: Door)
    requires CallsOf(s, door) && CanPick(s, door)
    ensures forall k :: k !in s.selects
  {
    if k :| k in s.selects { assert s.selects[k].waiting && s.selects[k].door == door; }
  }

  lemma DoorStep(s: State, e: Event, door: Door)
    requires CallsOf(s, door) && ThroughDoor(s, e, door)
    ensures Disciplined(s, e) && CallsOf(Apply(s, e), door)
  {
    if e.Pick? && CanPick(s, e.door) { DoorIsGuarded(s, door); }
  }

  lemma {:induction false} LongerRun(s: State, es: seq<Event>)
    requires es != [] && DisciplinedRun(s, es[..|es| - 1]) && Disciplined(After(s, es[..|es| - 1]), es[|es| - 1])
    ensures DisciplinedRun(s, es)
  {
    var front := es[..|es| - 1];
    forall i | 0 <= i < |es| ensures Disciplined(After(s, es[..i]), es[i]) {
      if i < |front| { assert front[..i] == es[..i] && front[i] == es[i]; }
    }
  }

  lemma {:induction false} OneDoorIsDisciplined(s: State, es: seq<Event>, door: Door)
    requires CallsOf(s, door) && RunThroughDoor(s, es, door)
    ensures DisciplinedRun(s, es) && CallsOf(After(s, es), door)
  {
    if es == [] {
    } else {
      var front := es[..|es| - 1];
      forall i | 0 <= i < |front| ensures ThroughDoor(After(s, front[..i]), front[i], door) {
        assert front[..i] == es[..i];
      }
      OneDoorIsDisciplined(s, front, door);
      DoorStep(After(s, front), es[|es| - 1], door);
      LongerRun(s, es);
    }
  }

  /**
   * A window in which every switch is started at one and the same place keeps the guarantee by
   * that place's own guard, as long as no call is given up before the daemon agreed to it and
   * what else is lost or moved does no harm.
   */
  lemma OneDoorIsSafe(active: Option<string>, es: seq<Event>, door: Door)
    requires RunThroughDoor(Opening(active), es, door)
    ensures var s := After(Opening(active), es);
            !Waits(s) && Truthy(s.mirror) ==> s.active == s.mirror && (Label(s) == s.mirror || s.readFailed)
  {
    OneDoorIsDisciplined(Opening(active), es, door);
    UncoveredScreenIsTheMirrored(active, es);
  }
}
