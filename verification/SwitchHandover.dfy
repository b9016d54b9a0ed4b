/** From the moment the mirror moves to the end of the switch's own re-read. */
module SwitchHandover {
  import opened Text
  import opened Bells
  import opened Switch
  import opened SwitchSafety

  // ------------------------------------------------- calls the daemon agreed to are waited for

  ghost predicate Awaited(s: State) {
    forall k :: k in s.selects ==> s.cache.Some? && (At(s, k, Sent) || s.selects[k].waiting)
  }

  lemma StepIsAwaited(s: State, e: Event)
    requires Awaited(s)
    ensures Awaited(Apply(s, e))
  {
  }

  lemma {:induction false} RunIsAwaited(s: State, es: seq<Event>)
    requires Awaited(s)
    ensures Awaited(After(s, es))
  {
    if es == [] {
    } else {
      RunIsAwaited(s, es[..|es| - 1]);
      StepIsAwaited(After(s, es[..|es| - 1]), es[|es| - 1]);
    }
  }

  // ------------------------------------------------- no gap

  /** The read under way fails, and it was started since `n`. */
  predicate ReadFalls(n: nat, s: State, e: Event) {
    && s.running.Some? && n <= s.running.value
    && e.ReadFails? && s.running == Some(e.body) && e.body in s.bodies && !s.bodies[e.body].phase.Done?
  }

  /** The read under way lands or fails, and it was started since `n`. */
  predicate ReadCloses(n: nat, s: State, e: Event) {
    && s.running.Some? && n <= s.running.value
    && ((e.Lands? && CanLand(s)) || ReadFalls(n, s, e))
  }

  /** The switch has its re-read still to order, and is pending till then. */
  predicate ToOrder(s: State, k: nat) {
    At(s, k, Confirmed) && s.selects[k].waiting
  }

  /** Either the switch is still pending or a read started since `n` is in flight. */
  ghost predicate HandedOver(n: nat, k: nat, s: State) {
    && WellFormed(s) && s.cache.Some? && n <= s.minted && s.mirror.Some? && k < s.minted
    && (ToOrder(s, k) || (s.running.Some? && n <= s.running.value))
  }

  lemma HandoverStep(n: nat, k: nat, s: State, e: Event)
    requires HandedOver(n, k, s) && !ReadCloses(n, s, e)
    ensures HandedOver(n, k, Apply(s, e))
  {
    StepIsWellFormed(s, e);
  }

  lemma {:induction false} HandoverRun(n: nat, k: nat, s: State, es: seq<Event>)
    requires HandedOver(n, k, s)
    requires forall i :: 0 <= i < |es| ==> !ReadCloses(n, After(s, es[..i]), es[i])
    ensures HandedOver(n, k, After(s, es))
  {
    if es == [] {
    } else {
      var front := es[..|es| - 1];
      forall i | 0 <= i < |front| ensures !ReadCloses(n, After(s, front[..i]), front[i]) {
        assert front[..i] == es[..i];
      }
      HandoverRun(n, k, s, front);
      HandoverStep(n, k, After(s, front), es[|es| - 1]);
    }
  }

  /** The state in which the answer to the call `k` has just moved the mirror. */
  function Mirrored(active: Option<string>, before: seq<Event>, k: nat): State {
    Apply(After(Opening(active), before), Confirms(k))
  }

  lemma {:induction false} MirroredIsHandedOver(active: Option<string>, before: seq<Event>, k: nat)
    requires At(After(Opening(active), before), k, Accepted)
    ensures var t := Mirrored(active, before, k);
            HandedOver(t.minted, k, t) && ToOrder(t, k)
  {
    RunIsWellFormed(Opening(active), before);
    RunIsAwaited(Opening(active), before);
    StepIsWellFormed(After(Opening(active), before), Confirms(k));
  }

  /**
   * No gap. After any run at all a select is confirmed and the mirror moves. Whatever follows, in
   * whatever order, and whether or not an earlier poll had failed: until a read started since
   * then lands or fails, the switch is pending or a read is in flight, and the screen is covered
   * for as long as the picture is another project's.
   */
  lemma {:induction false} NoGapBetweenSwitchAndRead(
      active: Option<string>, before: seq<Event>, k: nat, es: seq<Event>)
    requires At(After(Opening(active), before), k, Accepted)
    requires var t := Mirrored(active, before, k);
             forall i :: 0 <= i < |es| ==> !ReadCloses(t.minted, After(t, es[..i]), es[i])
    ensures var u := After(Mirrored(active, before, k), es);
            && (Switching(u) || u.running.Some?)
            && (Label(u) != u.mirror ==> Waits(u))
  {
    var t := Mirrored(active, before, k);
    MirroredIsHandedOver(active, before, k);
    HandoverRun(t.minted, k, t, es);
  }

  // ------------------------------------------------- only the switch's own read can fail it

  /** The failure flag is down, or about to be overruled by a read started since `n`. */
  ghost predicate NoneFailed(n: nat, k: nat, s: State) {
    && n <= s.minted && k < s.minted && s.mirror.Some?
    && (|| ToOrder(s, k)
        || if s.running.Some? then n <= s.running.value else !s.readFailed)
  }

  lemma NoneFailedStep(n: nat, k: nat, s: State, e: Event)
    requires NoneFailed(n, k, s) && s.cache.Some? && !ReadFalls(n, s, e)
    ensures NoneFailed(n, k, Apply(s, e)) && Apply(s, e).cache.Some?
  {
  }

  lemma {:induction false} NoneFailedRun(n: nat, k: nat, s: State, es: seq<Event>)
    requires NoneFailed(n, k, s) && s.cache.Some?
    requires forall i :: 0 <= i < |es| ==> !ReadFalls(n, After(s, es[..i]), es[i])
    ensures NoneFailed(n, k, After(s, es))
    ensures After(s, es).cache.Some?
  {
    if es == [] {
    } else {
      var front := es[..|es| - 1];
      forall i | 0 <= i < |front| ensures !ReadFalls(n, After(s, front[..i]), front[i]) {
        assert front[..i] == es[..i];
      }
      NoneFailedRun(n, k, s, front);
      NoneFailedStep(n, k, After(s, front), es[|es| - 1]);
    }
  }

  lemma {:induction false} MirroredKeeps(active: Option<string>, before: seq<Event>, k: nat)
    requires DisciplinedRun(Opening(active), before) && At(After(Opening(active), before), k, Accepted)
    ensures Inv(Mirrored(active, before, k))
  {
    RunKeeps(Opening(active), before);
    StepKeeps(After(Opening(active), before), Confirms(k));
  }

  /**
   * Screen safety after a switch. In every disciplined run, from the moment a select is confirmed
   * and for as long as no read started since then has failed, an uncovered screen shows a picture
   * labelled with the mirrored project, which is the daemon's. What failed before does not matter.
   */
  lemma {:induction false} OnlyItsOwnReadCanFailTheSwitch(
      active: Option<string>, before: seq<Event>, k: nat, es: seq<Event>)
    requires DisciplinedRun(Opening(active), before) && At(After(Opening(active), before), k, Accepted)
    requires var s := Mirrored(active, before, k);
             && DisciplinedRun(s, es)
             && forall i :: 0 <= i < |es| ==> !ReadFalls(s.minted, After(s, es[..i]), es[i])
    ensures var t := After(Mirrored(active, before, k), es);
            !Waits(t) ==> t.cache.Some? && Label(t) == t.mirror == t.active && Truthy(t.mirror)
  {
    var s := Mirrored(active, before, k);
    MirroredIsHandedOver(active, before, k);
    MirroredKeeps(active, before, k);
    RunKeeps(s, es);
    hide Inv;
    NoneFailedRun(s.minted, k, s, es);
    var t := After(s, es);
    if !Waits(t) {
      UncoveredInInv(t);
      assert t.mirror.Some?;
    }
  }
}
