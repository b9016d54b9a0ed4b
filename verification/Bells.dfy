/** spa/src/api/hints.ts: what a bell does to the cached picture. */
module Bells {
  import opened Text

  /** A frame of the live channel; a field the daemon left out is `None`. */
  datatype Frame = Frame(
    event: string,
    taskId: Option<string>,
    status: Option<string>,
    machineId: Option<string>,
    online: Option<bool>,
    turnId: Option<string>,
    stage: Option<string>,
    seqNo: Option<real>)

  datatype Row = Row(id: string, project: Option<string>, status: string)
  datatype Machine = Machine(id: string, title: string, online: bool)

  /** The part of the picture the live layer and the project switch look at. */
  datatype Picture = Picture(activeProject: Option<string>, queue: seq<Row>, machines: seq<Machine>)

  const TASK_EVENTS: set<string> := {
    "task.queued", "task.claimed", "task.running", "task.awaiting_approval",
    "task.approved", "task.returned", "task.failed" }

  /** A field that is there and not empty. */
  predicate Truthy(field: Option<string>) {
    field.Some? && field.value != ""
  }

  /** Where an identifier is first found. */
  function IndexOf(ids: seq<string>, id: string): (r: Option<nat>)
    ensures r.Some? ==> r.value < |ids| && ids[r.value] == id && forall j :: 0 <= j < r.value ==> ids[j] != id
    ensures r.None? ==> id !in ids
  {
    if ids == [] then None
    else if ids[0] == id then Some(0)
    else match IndexOf(ids[1..], id)
      case None => None
      case Some(i) =>
        assert forall j :: 1 <= j <= i ==> ids[j] == ids[1..][j - 1];
        Some(i + 1)
  }

  function RowIds(rows: seq<Row>): seq<string> {
    seq(|rows|, i requires 0 <= i < |rows| => rows[i].id)
  }

  function MachineIds(rows: seq<Machine>): seq<string> {
    seq(|rows|, i requires 0 <= i < |rows| => rows[i].id)
  }

  function ApplyHint(was: Picture, evt: Frame): Picture {
    if evt.event in TASK_EVENTS && Truthy(evt.taskId) then
      if !Truthy(evt.status) then was else
      match IndexOf(RowIds(was.queue), evt.taskId.value)
      case None => was
      case Some(i) =>
        if was.queue[i].status == evt.status.value then was
        else was.(queue := was.queue[i := was.queue[i].(status := evt.status.value)])
    else if evt.event == "machine.presence" && Truthy(evt.machineId) && evt.online.Some? then
      match IndexOf(MachineIds(was.machines), evt.machineId.value)
      case None => was
      case Some(i) =>
        if was.machines[i].online == evt.online.value then was
        else was.(machines := was.machines[i := was.machines[i].(online := evt.online.value)])
    else was
  }

  function ApplyHints(was: Picture, bells: seq<Frame>): Picture {
    if bells == [] then was else ApplyHint(ApplyHints(was, bells[..|bells| - 1]), bells[|bells| - 1])
  }

  // ------------------------------------------------- what the bells said, independently

  /** The status a bell announces for the task, if it is about that task and says one. */
  function Said(evt: Frame, id: string): Option<string> {
    if evt.event in TASK_EVENTS && evt.taskId == Some(id) && id != "" && Truthy(evt.status) then evt.status else None
  }

  /** The presence a bell announces for the machine. */
  function Seen(evt: Frame, id: string): Option<bool> {
    if evt.event == "machine.presence" && evt.machineId == Some(id) && id != "" then evt.online else None
  }

  function LastSaid(bells: seq<Frame>, id: string): Option<string> {
    if bells == [] then None
    else if Said(bells[|bells| - 1], id).Some? then Said(bells[|bells| - 1], id)
    else LastSaid(bells[..|bells| - 1], id)
  }

  function LastSeen(bells: seq<Frame>, id: string): Option<bool> {
    if bells == [] then None
    else if Seen(bells[|bells| - 1], id).Some? then Seen(bells[|bells| - 1], id)
    else LastSeen(bells[..|bells| - 1], id)
  }

  /** The place a bell about this identifier reaches: the first that carries it. */
  predicate First(ids: seq<string>, i: nat) {
    i < |ids| && forall j :: 0 <= j < i ==> ids[j] != ids[i]
  }

  function RowAfter(rows: seq<Row>, i: nat, said: Option<string>): Row
    requires i < |rows|
  {
    if First(RowIds(rows), i) && said.Some? then rows[i].(status := said.value) else rows[i]
  }

  function MachineAfter(rows: seq<Machine>, i: nat, seen: Option<bool>): Machine
    requires i < |rows|
  {
    if First(MachineIds(rows), i) && seen.Some? then rows[i].(online := seen.value) else rows[i]
  }

  /** Which bells say a task's status, and which a machine's presence. */
  lemma WhatABellSays(evt: Frame, id: string, word: string, online: bool)
    ensures Said(evt, id) == Some(word) <==>
            && evt.event in {"task.queued", "task.claimed", "task.running", "task.awaiting_approval",
                             "task.approved", "task.returned", "task.failed"}
            && id != "" && word != "" && evt.taskId == Some(id) && evt.status == Some(word)
    ensures Seen(evt, id) == Some(online) <==>
            evt.event == "machine.presence" && id != "" && evt.machineId == Some(id) && evt.online == Some(online)
  {
  }

  lemma OneBell(was: Picture, evt: Frame)
    ensures var now := ApplyHint(was, evt);
            && now.activeProject == was.activeProject
            && |now.queue| == |was.queue| && |now.machines| == |was.machines|
            && (forall i :: 0 <= i < |was.queue| ==>
                  now.queue[i] == RowAfter(was.queue, i, Said(evt, was.queue[i].id)))
            && (forall i :: 0 <= i < |was.machines| ==>
                  now.machines[i] == MachineAfter(was.machines, i, Seen(evt, was.machines[i].id)))
  {
    var rows, machines := RowIds(was.queue), MachineIds(was.machines);
    assert forall i :: 0 <= i < |rows| ==> rows[i] == was.queue[i].id;
    assert forall i :: 0 <= i < |machines| ==> machines[i] == was.machines[i].id;
  }

  /**
   * The whole of what bells do: nothing but statuses and presence moves; every task keeps its
   * place, and shows what the last bell that named it said, or the reading's own word.
   */
  lemma {:induction false} BellsPatchOnly(was: Picture, bells: seq<Frame>)
    ensures var now := ApplyHints(was, bells);
            && now.activeProject == was.activeProject
            && |now.queue| == |was.queue| && |now.machines| == |was.machines|
            && (forall i :: 0 <= i < |was.queue| ==>
                  now.queue[i] == RowAfter(was.queue, i, LastSaid(bells, was.queue[i].id)))
            && (forall i :: 0 <= i < |was.machines| ==>
                  now.machines[i] == MachineAfter(was.machines, i, LastSeen(bells, was.machines[i].id)))
  {
    if bells == [] {
    } else {
      var front, evt := bells[..|bells| - 1], bells[|bells| - 1];
      var mid := ApplyHints(was, front);
      BellsPatchOnly(was, front);
      OneBell(mid, evt);
      forall i | 0 <= i < |was.queue|
        ensures ApplyHint(mid, evt).queue[i] == RowAfter(was.queue, i, LastSaid(bells, was.queue[i].id))
      {
        assert RowIds(mid.queue) == RowIds(was.queue);
      }
      forall i | 0 <= i < |was.machines|
        ensures ApplyHint(mid, evt).machines[i] == MachineAfter(was.machines, i, LastSeen(bells, was.machines[i].id))
      {
        assert MachineIds(mid.machines) == MachineIds(was.machines);
      }
    }
  }
}
