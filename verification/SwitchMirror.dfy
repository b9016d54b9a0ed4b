/** The mirror: never ahead of the daemon, never moved back by a late answer. */
module SwitchMirror {
  import opened Text
  import opened Bells
  import opened Switch

  // ------------------------------------------------- never ahead

  /** At some moment of the run the daemon itself had this project active. */
  ghost predicate WasActive(s: State, es: seq<Event>, project: Option<string>) {
    exists n :: 0 <= n <= |es| && After(s, es[..n]).active == project
  }

  ghost predicate OnlyFromDaemon(s: State, es: seq<Event>) {
    var t := After(s, es);
    && (Truthy(t.mirror) ==> WasActive(s, es, t.mirror))
    && (forall b :: b in t.bodies && !t.bodies[b].phase.Asked? ==>
          WasActive(s, es, t.bodies[b].phase.picture.activeProject))
    && (forall k :: At(t, k, Accepted) ==> WasActive(s, es, Some(t.selects[k].target)))
  }

  lemma WasActiveBefore(s: State, es: seq<Event>, e: Event, project: Option<string>)
    requires WasActive(s, es, project)
    ensures WasActive(s, es + [e], project)
  {
    var n :| 0 <= n <= |es| && After(s, es[..n]).active == project;
    assert (es + [e])[..n] == es[..n];
  }

  lemma {:induction false} IsActiveNow(s: State, es: seq<Event>)
    ensures WasActive(s, es, After(s, es).active)
  {
    assert es[..|es|] == es;
  }

  predicate Tells(s: State, b: nat, project: Option<string>) {
    b in s.bodies && !s.bodies[b].phase.Asked? && s.bodies[b].phase.picture.activeProject == project
  }

  /** Where one step takes each name from: an earlier answer, an agreed call, or the daemon now. */
  lemma NamesComeFrom(s: State, e: Event)
    ensures var t := Apply(s, e);
            && (t.mirror == s.mirror || (exists b :: Tells(s, b, t.mirror))
                || (exists k :: At(s, k, Accepted) && t.mirror == Some(s.selects[k].target)))
            && (forall b, project :: Tells(t, b, project) ==> Tells(s, b, project) || project == s.active)
            && (forall k :: At(t, k, Accepted) ==>
                  || (At(s, k, Accepted) && t.selects[k].target == s.selects[k].target)
                  || t.active == Some(t.selects[k].target))
  {
    var t := Apply(s, e);
    if e.BodyEnds? && t.mirror != s.mirror { assert Tells(s, e.body, t.mirror); }
    if e.Confirms? && t.mirror != s.mirror { assert At(s, e.call, Accepted); }
  }

  lemma StepIsFromDaemon(s: State, es: seq<Event>, e: Event)
    requires OnlyFromDaemon(s, es)
    ensures OnlyFromDaemon(s, es + [e])
  {
    var all := es + [e];
    var t, u := After(s, es), After(s, all);
    assert all[..|all| - 1] == es;
    assert u == Apply(t, e);
    NamesComeFrom(t, e);
    IsActiveNow(s, es);
    IsActiveNow(s, all);
    forall project | WasActive(s, es, project) ensures WasActive(s, all, project) {
      WasActiveBefore(s, es, e, project);
    }
    forall b | b in u.bodies && !u.bodies[b].phase.Asked?
      ensures WasActive(s, all, u.bodies[b].phase.picture.activeProject)
    {
      assert Tells(u, b, u.bodies[b].phase.picture.activeProject);
    }
  }

  lemma {:induction false} RunIsFromDaemon(s: State, es: seq<Event>)
    requires OnlyFromDaemon(s, [])
    ensures OnlyFromDaemon(s, es)
  {
    if es == [] {
    } else {
      RunIsFromDaemon(s, es[..|es| - 1]);
      StepIsFromDaemon(s, es[..|es| - 1], es[|es| - 1]);
      assert es[..|es| - 1] + [es[|es| - 1]] == es;
    }
  }

  /**
   * The mirror never runs ahead of the daemon: in every run at all, with overlapping switches,
   * lost answers, cancelled readers and a second window moving the daemon, it is empty or holds
   * a project the daemon itself had active at some moment of the run.
   */
  lemma {:induction false} MirrorIsNeverAhead(active: Option<string>, es: seq<Event>)
    ensures var t := After(Opening(active), es);
            Truthy(t.mirror) ==> exists n :: 0 <= n <= |es| && After(Opening(active), es[..n]).active == t.mirror
  {
    RunIsFromDaemon(Opening(active), es);
  }

  // ------------------------------------------------- never back

  lemma OnlyAConfirmedSelectMoves(s: State, e: Event)
    requires Truthy(s.mirror) && Apply(s, e).mirror != s.mirror
    ensures e.Confirms? && At(s, e.call, Accepted) && Apply(s, e).mirror == Some(s.selects[e.call].target)
  {
  }

  /**
   * A late answer never moves the choice back: once the mirror holds a project, whatever is
   * read, served, cancelled, retried or rung and in whatever order, without a confirmed select
   * it holds that project to the end of the run.
   */
  lemma {:induction false} LateAnswersNeverMoveTheChoice(s: State, es: seq<Event>)
    requires Truthy(s.mirror)
    requires forall i :: 0 <= i < |es| ==> !es[i].Confirms?
    ensures After(s, es).mirror == s.mirror
  {
    if es == [] {
    } else {
      var front := es[..|es| - 1];
      LateAnswersNeverMoveTheChoice(s, front);
      if After(s, es).mirror != s.mirror {
        OnlyAConfirmedSelectMoves(After(s, front), es[|es| - 1]);
      }
    }
  }

  // ------------------------------------------------- the cache is the last reading with its bells

  /** The last reading that landed in the run. */
  ghost function LastReading(s: State, es: seq<Event>): Option<Reading> {
    if es == [] then None else
    var front, e := es[..|es| - 1], es[|es| - 1];
    var t := After(s, front);
    if e.Lands? && CanLand(t) then
      Some(Reading(t.bodies[t.running.value].phase.picture, t.bodies[t.running.value].narrow))
    else LastReading(s, front)
  }

  /** The bells rung since that landing. */
  ghost function BellsSince(s: State, es: seq<Event>): seq<Frame> {
    if es == [] then [] else
    var front, e := es[..|es| - 1], es[|es| - 1];
    if e.Lands? && CanLand(After(s, front)) then []
    else if e.Rings? then BellsSince(s, front) + [e.frame]
    else BellsSince(s, front)
  }

  lemma OnlyLandingsAndBellsTouchTheCache(s: State, e: Event)
    requires !e.Rings? && !(e.Lands? && CanLand(s))
    ensures Apply(s, e).cache == s.cache
  {
  }

  lemma {:induction false} CacheIsReadingPlusBells(s: State, es: seq<Event>)
    requires s.cache.None?
    ensures After(s, es).cache ==
            match LastReading(s, es)
            case None => None
            case Some(r) => Some(r.(picture := ApplyHints(r.picture, BellsSince(s, es))))
  {
    if es == [] {
    } else {
      var front, e := es[..|es| - 1], es[|es| - 1];
      CacheIsReadingPlusBells(s, front);
      var bells := BellsSince(s, front);
      if e.Rings? {
        assert (bells + [e.frame])[..|bells|] == bells;
      } else if e.Lands? && CanLand(After(s, front)) {
        assert ApplyHints(LastReading(s, es).value.picture, []) == LastReading(s, es).value.picture;
      } else {
        OnlyLandingsAndBellsTouchTheCache(After(s, front), e);
      }
    }
  }

  /**
   * A bell is only a patch: whatever the run, the cached picture has the project label, the
   * rows, their order and their identifiers of the last landed reading, and each task shows the
   * last word rung about it since that landing, or the reading's own.
   */
  lemma {:induction false} BellsAreOnlyAPatch(active: Option<string>, es: seq<Event>)
    requires After(Opening(active), es).cache.Some?
    ensures LastReading(Opening(active), es).Some?
    ensures var told := LastReading(Opening(active), es).value.picture;
            var shown := After(Opening(active), es).cache.value.picture;
            var bells := BellsSince(Opening(active), es);
            && shown.activeProject == told.activeProject
            && |shown.queue| == |told.queue| && |shown.machines| == |told.machines|
            && (forall i :: 0 <= i < |told.queue| ==>
                  shown.queue[i] == RowAfter(told.queue, i, LastSaid(bells, told.queue[i].id)))
            && (forall i :: 0 <= i < |told.machines| ==>
                  shown.machines[i] == MachineAfter(told.machines, i, LastSeen(bells, told.machines[i].id)))
  {
    CacheIsReadingPlusBells(Opening(active), es);
    BellsPatchOnly(LastReading(Opening(active), es).value.picture, BellsSince(Opening(active), es));
  }
}
