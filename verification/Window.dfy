/** The window's own half of the switch, as the statements between two awaits change it. */
module Window {
  import opened Text
  import opened Bells
  import opened Switch

  /** spa/src/api/selected-project.ts: the one module variable. */
  class SelectedProject {
    var current: Option<string>

    constructor ()
      ensures current == None
    {
      current := None;
    }

    method SetSelectedProject(id: Option<string>)
      modifies this
      ensures current == id
    {
      current := id;
    }
  }

  class ProjectWindow {
    const selected: SelectedProject
    var cache: Option<Reading>
    var bodies: map<nat, Body>
    var running: Option<nat>
    var selects: map<nat, Select>
    var minted: nat
    var readFailed: bool
    /** The daemon's choice, which no method of the window reads. */
    ghost var active: Option<string>

    ghost function View(): State
      reads this, selected
    {
      State(active, selected.current, cache, bodies, running, selects, minted, readFailed)
    }

    constructor (ghost daemon: Option<string>)
      ensures View() == Opening(daemon) && fresh(selected)
      ensures selected.current == None && cache == None && running == None && !readFailed
      ensures bodies == map[] && selects == map[]
    {
      selected := new SelectedProject();
      cache, bodies, running, selects, minted, readFailed := None, map[], None, map[], 0, false;
      active := daemon;
    }

    /** stateQueryFn up to its await: the mirror is read once, here. */
    method StartStateQuery()
      modifies this
      ensures View() == StartBody(old(View()))
      ensures running == Some(old(minted)) && bodies[old(minted)].phase == Asked
      ensures Truthy(selected.current) ==> bodies[old(minted)].narrow == selected.current
      ensures !Truthy(selected.current) ==> bodies[old(minted)].narrow == None
    {
      var project := selected.current;
      var narrow := if Truthy(project) then project else None;
      bodies := bodies[minted := Body(narrow, Asked)];
      running := Some(minted);
      minted := minted + 1;
    }

    method PollTick()
      modifies this
      ensures View() == Apply(old(View()), ReadDue)
      ensures old(running).Some? ==> View() == old(View())
    {
      if running.None? { StartStateQuery(); }
    }

    method InvalidateState()
      modifies this
      ensures View() == OrderRefresh(old(View()))
      ensures old(running).Some? && old(cache).None? ==> View() == old(View())
      ensures old(running).None? || old(cache).Some? ==> running == Some(old(minted)) && minted == old(minted) + 1
    {
      if running.None? || cache.Some? { StartStateQuery(); }
    }

    /** stateQueryFn after its await: seed the mirror if it is still empty, hand the answer over. */
    method ResumeStateQuery(b: nat)
      requires b in bodies && bodies[b].phase.Answered?
      modifies this, selected
      ensures View() == Apply(old(View()), BodyEnds(b))
      ensures Truthy(old(selected.current)) ==> selected.current == old(selected.current)
      ensures cache == old(cache) && running == old(running)
    {
      var payload := bodies[b].phase.picture;
      if !Truthy(selected.current) && Truthy(payload.activeProject) {
        selected.SetSelectedProject(payload.activeProject);
      }
      if running == Some(b) {
        bodies := bodies[b := bodies[b].(phase := Done(payload))];
      } else {
        bodies := Without(bodies, b);
      }
    }

    method Land()
      requires CanLand(View())
      modifies this
      ensures View() == Apply(old(View()), Lands)
      ensures selected.current == old(selected.current) && running.None? && cache.Some?
    {
      var b := running.value;
      cache := Some(Reading(bodies[b].phase.picture, bodies[b].narrow));
      bodies := Without(bodies, b);
      running := None;
      readFailed := false;
    }

    /** ProjectSelector.pick: refused while the selector's own switch is pending. */
    method PickInSelector(id: string)
      requires cache.Some?
      modifies this
      ensures View() == Apply(old(View()), Pick(Selector, id))
      ensures old(exists k :: k in selects && selects[k].waiting && selects[k].door == Selector) ==>
                View() == old(View())
      ensures old(forall k :: k in selects && selects[k].door == Selector ==> !selects[k].waiting) ==>
                selects == old(selects)[old(minted) := Select(Selector, id, Sent, true)]
      ensures selected.current == old(selected.current) && cache == old(cache) && running == old(running)
    {
      if exists k :: k in selects && selects[k].waiting && selects[k].door == Selector { return; }
      selects := selects[minted := Select(Selector, id, Sent, true)];
      minted := minted + 1;
    }

    /** selectProject after its await, reached only on an accepted answer: the mirror moves here. */
    method ResumeSelect(call: nat)
      requires At(View(), call, Accepted)
      modifies this, selected
      ensures View() == Apply(old(View()), Confirms(call))
      ensures selected.current == Some(old(selects[call].target)) && cache == old(cache) && running == old(running)
    {
      selected.SetSelectedProject(Some(selects[call].target));
      selects := selects[call := selects[call].(stage := Confirmed)];
    }

    /** selectProjectAndRefresh after its await: the re-read is ordered when the mirror has moved already. */
    method ResumeSelectAndRefresh(call: nat)
      requires At(View(), call, Confirmed)
      modifies this
      ensures View() == Apply(old(View()), Orders(call))
      ensures selected.current == old(selected.current) && running.Some?
      ensures old(cache).Some? ==> running == Some(old(minted))
    {
      InvalidateState();
      selects := selects[call := selects[call].(stage := Refreshing)];
    }

    /** The frame handler: a bell patches the cached picture, and an empty cache stays empty. */
    method OnFrame(frame: Frame)
      modifies this
      ensures View() == Apply(old(View()), Rings(frame))
      ensures old(cache).None? ==> cache.None?
    {
      if cache.Some? {
        cache := Some(cache.value.(picture := ApplyHint(cache.value.picture, frame)));
      }
    }

    /** What the shell feeds the decision, and the decision. */
    method Covers() returns (waits: bool)
      ensures waits == Waits(View())
      ensures cache.None? ==> waits
      ensures (forall k :: k in selects ==> !selects[k].waiting) && cache.Some? && running.None? ==> !waits
    {
      var switching := exists k :: k in selects && selects[k].waiting;
      var answeredFor := if cache.Some? then cache.value.picture.activeProject else None;
      waits := ScreenWaits(WaitInput(switching, cache.Some?, answeredFor, selected.current, running.Some?));
    }
  }
}
