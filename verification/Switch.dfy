/**
 * The project switch and the live picture as one step system: queries.ts, client.ts,
 * selected-project.ts, ProjectSelector.tsx and Shell.tsx between their awaits.
 *
 * An event that cannot happen in a state leaves it as it is, so a run is any sequence of events.
 */
module Switch {
  import opened Text
  import opened Bells

  /** A landed reading: the picture, and what the question was narrowed by when it was asked. */
  datatype Reading = Reading(picture: Picture, narrow: Option<string>)

  /** One call of the read function: asked, answered by the daemon, or run to its end. */
  datatype Phase = Asked | Answered(picture: Picture) | Done(picture: Picture)

  datatype Body = Body(narrow: Option<string>, phase: Phase)

  /** The two places that start a switch, each with its own pending flag. */
  datatype Door = Selector | MachinesScreen

  /** A select call: on its way, agreed to by the daemon, mirrored, and with its re-read ordered. */
  datatype Stage = Sent | Accepted | Confirmed | Refreshing

  /** `waiting` is false once the window gave up on the answer; the daemon may still act on it. */
  datatype Select = Select(door: Door, target: string, stage: Stage, waiting: bool)

  datatype State = State(
    active: Option<string>,
    mirror: Option<string>,
    cache: Option<Reading>,
    bodies: map<nat, Body>,
    running: Option<nat>,
    selects: map<nat, Select>,
    minted: nat,
    readFailed: bool)

  datatype Event =
    | ReadDue
    | Refresh
    | Serves(body: nat, told: Picture)
    | BodyEnds(body: nat)
    | Lands
    | ReadFails(body: nat)
    | ReadRetries
    | Pick(door: Door, id: string)
    | Accepts(call: nat)
    | Refuses(call: nat)
    | GivesUp(call: nat)
    | Confirms(call: nat)
    | Orders(call: nat)
    | Ends(call: nat)
    | Rings(frame: Frame)
    | DaemonMoves(place: Option<string>)

  function Opening(active: Option<string>): State {
    State(active, None, None, map[], None, map[], 0, false)
  }

  // ------------------------------------------------- cover or show

  datatype WaitInput = WaitInput(
    switching: bool, hasPicture: bool, answeredFor: Option<string>, askedFor: Option<string>, fetching: bool)

  predicate ScreenWaits(input: WaitInput) {
    if input.switching then true
    else if !input.hasPicture then true
    else input.fetching && input.askedFor != None && input.askedFor != input.answeredFor
  }

  predicate Switching(s: State) {
    exists k :: k in s.selects && s.selects[k].waiting
  }

  function Label(s: State): Option<string> {
    if s.cache.Some? then s.cache.value.picture.activeProject else None
  }

  predicate Waits(s: State) {
    ScreenWaits(WaitInput(Switching(s), s.cache.Some?, Label(s), s.mirror, s.running.Some?))
  }

  // ------------------------------------------------- the steps

  /** The front half of the read function: it captures what the mirror holds now. */
  function StartBody(s: State): State {
    s.(bodies := s.bodies[s.minted := Body(if Truthy(s.mirror) then s.mirror else None, Asked)],
       running := Some(s.minted),
       minted := s.minted + 1)
  }

  /** Ordering a refresh silently drops the read under way, unless nothing has landed yet: then it joins it. */
  function OrderRefresh(s: State): State {
    if s.running.Some? && s.cache.None? then s else StartBody(s)
  }

  /** The read function seeds an empty mirror with what the daemon answered, and only an empty one. */
  function Seeded(mirror: Option<string>, told: Option<string>): Option<string> {
    if !Truthy(mirror) && Truthy(told) then told else mirror
  }

  function Without<T>(m: map<nat, T>, k: nat): map<nat, T> {
    m - {k}
  }

  predicate Busy(s: State, door: Door) {
    exists k :: k in s.selects && s.selects[k].waiting && s.selects[k].door == door
  }

  /**
   * The selector refuses a second press while its own is pending; the machines screen can be
   * pressed while it is shown.
   */
  predicate CanPick(s: State, door: Door) {
    match door
    case Selector => s.cache.Some? && !Busy(s, Selector)
    case MachinesScreen => !Waits(s)
  }

  predicate At(s: State, call: nat, stage: Stage) {
    call in s.selects && s.selects[call].stage == stage
  }

  /** The read under way has come to its end and its answer is the one the cache takes. */
  predicate CanLand(s: State) {
    s.running.Some? && s.running.value in s.bodies && s.bodies[s.running.value].phase.Done?
  }

  function Apply(s: State, e: Event): State {
    match e
    case ReadDue => if s.running.Some? then s else StartBody(s)
    case Refresh => OrderRefresh(s)
    case Serves(b, told) =>
      if b in s.bodies && s.bodies[b].phase.Asked? then
        s.(bodies := s.bodies[b := s.bodies[b].(phase := Answered(told.(activeProject := s.active)))])
      else s
    case BodyEnds(b) =>
      if b in s.bodies && s.bodies[b].phase.Answered? then
        var told := s.bodies[b].phase.picture;
        s.(mirror := Seeded(s.mirror, told.activeProject),
           bodies := if s.running == Some(b) then s.bodies[b := s.bodies[b].(phase := Done(told))]
                     else Without(s.bodies, b))
      else s
    case Lands =>
      if CanLand(s) then
        var b := s.bodies[s.running.value];
        s.(cache := Some(Reading(b.phase.picture, b.narrow)),
           bodies := Without(s.bodies, s.running.value),
           running := None,
           readFailed := false)
      else s
    case ReadFails(b) =>
      if b in s.bodies && !s.bodies[b].phase.Done? then
        var dropped := s.(bodies := Without(s.bodies, b));
        if s.running == Some(b) then dropped.(running := None, readFailed := true) else dropped
      else s
    case ReadRetries =>
      if s.running.Some? && s.running.value in s.bodies && !s.bodies[s.running.value].phase.Done? then
        StartBody(s.(bodies := Without(s.bodies, s.running.value)))
      else s
    case Pick(door, id) =>
      if CanPick(s, door) then
        s.(selects := s.selects[s.minted := Select(door, id, Sent, true)], minted := s.minted + 1)
      else s
    case Accepts(k) =>
      if At(s, k, Sent) && s.selects[k].target != "" then
        s.(active := Some(s.selects[k].target),
           selects := if s.selects[k].waiting then s.selects[k := s.selects[k].(stage := Accepted)]
                      else Without(s.selects, k))
      else s
    case Refuses(k) =>
      if At(s, k, Sent) then s.(selects := Without(s.selects, k)) else s
    case GivesUp(k) =>
      if At(s, k, Sent) then s.(selects := s.selects[k := s.selects[k].(waiting := false)])
      else if At(s, k, Accepted) then s.(selects := Without(s.selects, k))
      else s
    case Confirms(k) =>
      if At(s, k, Accepted) then
        s.(mirror := Some(s.selects[k].target),
           selects := s.selects[k := s.selects[k].(stage := Confirmed)])
      else s
    case Orders(k) =>
      if At(s, k, Confirmed) then
        OrderRefresh(s).(selects := s.selects[k := s.selects[k].(stage := Refreshing)])
      else s
    case Ends(k) =>
      if At(s, k, Refreshing) then s.(selects := Without(s.selects, k)) else s
    case Rings(frame) =>
      if s.cache.Some? then
        s.(cache := Some(s.cache.value.(picture := ApplyHint(s.cache.value.picture, frame))))
      else s
    case DaemonMoves(place) => s.(active := place)
  }

  // ------------------------------------------------- what the steps mean, one by one

  /** A call of the read function starts: it captures the mirror, or nothing while the mirror is empty. */
  predicate Starts(s: State, t: State) {
    && t == s.(bodies := t.bodies, running := Some(s.minted), minted := s.minted + 1)
    && s.minted in t.bodies && t.bodies[s.minted].phase == Asked
    && (s.mirror.Some? && s.mirror.value != "" ==> t.bodies[s.minted].narrow == s.mirror)
    && (s.mirror.None? || s.mirror.value == "" ==> t.bodies[s.minted].narrow == None)
  }

  /**
   * A poll joins the read under way; an ordered refresh takes its place, and leaves it running on
   * its own, unless no picture has arrived yet; a retry asks anew and forgets the call before.
   */
  lemma HowReadsStart(s: State)
    ensures s.running.Some? ==> Apply(s, ReadDue) == s
    ensures s.running.None? ==> Starts(s, Apply(s, ReadDue))
    ensures s.running.Some? && s.cache.None? ==> Apply(s, Refresh) == s
    ensures s.running.None? || s.cache.Some? ==> Starts(s, Apply(s, Refresh))
    ensures s.running.None? || s.cache.Some? ==>
              forall b :: b in s.bodies && b != s.minted ==>
                b in Apply(s, Refresh).bodies && Apply(s, Refresh).bodies[b] == s.bodies[b]
    ensures s.running.Some? && s.running.value in s.bodies && !s.bodies[s.running.value].phase.Done? ==>
              Starts(s, Apply(s, ReadRetries)) &&
              (s.running.value != s.minted ==> s.running.value !in Apply(s, ReadRetries).bodies)
  {
  }

  /** An answer is labelled with the daemon's project of that moment, and changes nothing else yet. */
  lemma HowReadsAreServed(s: State, b: nat, told: Picture)
    requires b in s.bodies && s.bodies[b].phase.Asked?
    ensures var t := Apply(s, Serves(b, told));
            && t == s.(bodies := t.bodies) && t.bodies.Keys == s.bodies.Keys
            && t.bodies[b] == Body(s.bodies[b].narrow, Answered(Picture(s.active, told.queue, told.machines)))
            && forall c :: c in s.bodies && c != b ==> t.bodies[c] == s.bodies[c]
  {
  }

  /** A body that ends seeds the mirror only while it is empty; only the body under way keeps its answer. */
  lemma HowReadsEnd(s: State, b: nat)
    requires b in s.bodies && s.bodies[b].phase.Answered?
    ensures var t, told := Apply(s, BodyEnds(b)), s.bodies[b].phase.picture;
            && t == s.(mirror := t.mirror, bodies := t.bodies)
            && (s.mirror.Some? && s.mirror.value != "" ==> t.mirror == s.mirror)
            && (!(s.mirror.Some? && s.mirror.value != "") ==>
                  t.mirror == if told.activeProject.Some? && told.activeProject.value != "" then told.activeProject
                              else s.mirror)
            && (s.running == Some(b) ==> b in t.bodies && t.bodies[b] == Body(s.bodies[b].narrow, Done(told)))
            && (s.running != Some(b) ==> b !in t.bodies)
            && forall c :: c in s.bodies && c != b ==> c in t.bodies && t.bodies[c] == s.bodies[c]
  {
  }

  /**
   * A landing replaces the picture and takes the failure back; the failure of the read under way
   * is noted, of any other not.
   */
  lemma HowReadsLandOrFail(s: State, b: nat)
    requires b in s.bodies
    ensures s.running == Some(b) && s.bodies[b].phase.Done? ==>
              var t := Apply(s, Lands);
              && t == s.(cache := Some(Reading(s.bodies[b].phase.picture, s.bodies[b].narrow)),
                         bodies := s.bodies - {b}, running := None, readFailed := false)
    ensures !s.bodies[b].phase.Done? ==>
              Apply(s, ReadFails(b)) ==
              if s.running == Some(b) then s.(bodies := s.bodies - {b}, running := None, readFailed := true)
              else s.(bodies := s.bodies - {b})
  {
  }

  /** The life of a call: agreed to or refused, answered or given up, its re-read ordered, ended. */
  lemma HowCallsGo(s: State, k: nat, x: Select)
    requires k in s.selects && s.selects[k] == x
    ensures x.stage.Sent? && x.waiting && x.target != "" ==>
              Apply(s, Accepts(k)) == s.(active := Some(x.target), selects := s.selects[k := x.(stage := Accepted)])
    ensures x.stage.Sent? && !x.waiting && x.target != "" ==>
              Apply(s, Accepts(k)) == s.(active := Some(x.target), selects := s.selects - {k})
    ensures x.stage.Sent? && x.target == "" ==> Apply(s, Accepts(k)) == s
    ensures x.stage.Sent? ==> Apply(s, Refuses(k)) == s.(selects := s.selects - {k})
    ensures x.stage.Sent? ==> Apply(s, GivesUp(k)) == s.(selects := s.selects[k := x.(waiting := false)])
    ensures x.stage.Accepted? ==> Apply(s, GivesUp(k)) == s.(selects := s.selects - {k})
    ensures x.stage.Accepted? ==>
              Apply(s, Confirms(k)) == s.(mirror := Some(x.target), selects := s.selects[k := x.(stage := Confirmed)])
    ensures x.stage.Confirmed? ==>
              Apply(s, Orders(k)) == Apply(s, Refresh).(selects := s.selects[k := x.(stage := Refreshing)])
    ensures x.stage.Refreshing? ==> Apply(s, Ends(k)) == s.(selects := s.selects - {k})
  {
  }

  /** An event of a read that comes when it cannot happen changes nothing. */
  lemma IllTimedReadIsNothing(s: State, k: nat, told: Picture)
    ensures !(k in s.bodies && s.bodies[k].phase.Asked?) ==> Apply(s, Serves(k, told)) == s
    ensures !(k in s.bodies && s.bodies[k].phase.Answered?) ==> Apply(s, BodyEnds(k)) == s
    ensures k !in s.bodies || s.bodies[k].phase.Done? ==> Apply(s, ReadFails(k)) == s
    ensures !(s.running.Some? && s.running.value in s.bodies && s.bodies[s.running.value].phase.Done?) ==>
              Apply(s, Lands) == s
    ensures s.running.None? || s.running.value !in s.bodies || s.bodies[s.running.value].phase.Done? ==>
              Apply(s, ReadRetries) == s
  {
  }

  /** Nor does an event of a call. */
  lemma IllTimedCallIsNothing(s: State, k: nat)
    ensures k !in s.selects || !s.selects[k].stage.Sent? ==>
              Apply(s, Accepts(k)) == s && Apply(s, Refuses(k)) == s
    ensures k !in s.selects || !s.selects[k].stage.Accepted? ==> Apply(s, Confirms(k)) == s
    ensures k !in s.selects || s.selects[k].stage.Confirmed? || s.selects[k].stage.Refreshing? ==>
              Apply(s, GivesUp(k)) == s
    ensures k !in s.selects || !s.selects[k].stage.Confirmed? ==> Apply(s, Orders(k)) == s
    ensures k !in s.selects || !s.selects[k].stage.Refreshing? ==> Apply(s, Ends(k)) == s
  {
  }

  /**
   * A bell touches the cached picture and nothing else; whatever else moves the daemon touches the
   * daemon alone.
   */
  lemma HowTheWorldMoves(s: State, frame: Frame, place: Option<string>)
    ensures var t := Apply(s, Rings(frame));
            && t == s.(cache := t.cache)
            && (s.cache.None? ==> t.cache.None?)
            && (s.cache.Some? ==> t.cache.Some? && t.cache.value.narrow == s.cache.value.narrow
                                  && t.cache.value.picture == ApplyHint(s.cache.value.picture, frame))
    ensures Apply(s, DaemonMoves(place)).active == place
    ensures Apply(s, DaemonMoves(place)).(active := s.active) == s
  {
  }

  /**
   * The selector's own guard: a press is sent unless a call it started still waits for its answer.
   * A call that was given up does not keep it busy.
   */
  lemma SelectorIsBusyOnlyWhileItWaits(s: State, id: string)
    requires s.cache.Some?
    ensures (forall k :: k in s.selects && s.selects[k].door == Selector ==> !s.selects[k].waiting) ==>
              Apply(s, Pick(Selector, id)) ==
              s.(selects := s.selects[s.minted := Select(Selector, id, Sent, true)], minted := s.minted + 1)
    ensures (exists k :: k in s.selects && s.selects[k].door == Selector && s.selects[k].waiting) ==>
              Apply(s, Pick(Selector, id)) == s
  {
  }

  /** The machines screen can be pressed exactly while it is on the glass, whatever the selector does. */
  lemma MachinesScreenTakesAPressIffShown(s: State, id: string)
    ensures !Waits(s) ==>
              Apply(s, Pick(MachinesScreen, id)) ==
              s.(selects := s.selects[s.minted := Select(MachinesScreen, id, Sent, true)], minted := s.minted + 1)
    ensures Waits(s) ==> Apply(s, Pick(MachinesScreen, id)) == s
  {
  }

  /** When the screen is covered: a call is waited for, there is no picture, or another project's is on its way. */
  lemma CoveredIff(s: State)
    ensures Waits(s) <==>
            || (exists k :: k in s.selects && s.selects[k].waiting)
            || s.cache.None?
            || (s.running.Some? && s.mirror.Some? && s.mirror != s.cache.value.picture.activeProject)
  {
  }

  function After(s: State, es: seq<Event>): State {
    if es == [] then s else Apply(After(s, es[..|es| - 1]), es[|es| - 1])
  }

  lemma {:induction false} AfterSum(s: State, a: seq<Event>, b: seq<Event>)
    ensures After(s, a + b) == After(After(s, a), b)
  {
    if b == [] {
      assert a + b == a;
    } else {
      var front := b[..|b| - 1];
      assert (a + b)[..|a + b| - 1] == a + front;
      AfterSum(s, a, front);
    }
  }

  lemma {:induction false} AfterFirst(s: State, es: seq<Event>)
    requires es != []
    ensures After(s, es) == After(Apply(s, es[0]), es[1..])
  {
    assert es == [es[0]] + es[1..];
    AfterSum(s, [es[0]], es[1..]);
    assert [es[0]][..0] == [];
  }
}
