/** spa/src/screens/agents/DraftCard.tsx: the two human steps that turn a draft into a worker. */
module Activation {
  import opened Text

  datatype ApproveProblem = SoftDenied | NotMerged | ApproveDoorSilent | Taken | NotApproved

  datatype ToggleProblem = NoFile | StayedOff | ToggleDoorSilent | NotSwitched

  datatype Refusal = NotReady | RaceLost | OtherRefusal

  /** What crosses the wire: the two requests and their answers, an error being an answer too. */
  datatype Entry =
    | AskApprove
    | ApproveAnswer(ok: bool, merged: bool, softDenied: bool)
    | ApproveError(why: Refusal)
    | AskToggle(id: string)
    | ToggleAnswer(stillOff: bool)
    | ToggleError(why: Refusal)

  datatype Card = Card(
    agentId: Option<string>, approving: bool, toggling: bool, approved: bool, enabled: bool,
    approveProblem: Option<ApproveProblem>, toggleProblem: Option<ToggleProblem>, wire: seq<Entry>)

  datatype Event =
    | Press
    | ApproveAnswers(ok: bool, merged: bool, softDenied: bool)
    | ApproveFails(why: Refusal)
    | ToggleAnswers(stillOff: bool)
    | ToggleFails(why: Refusal)

  function NewCard(agentId: Option<string>): Card {
    Card(agentId, false, false, false, false, None, None, [])
  }

  function RunToggle(c: Card): Card {
    if c.agentId.None? then c.(toggleProblem := Some(NoFile))
    else c.(toggleProblem := None, toggling := true, wire := c.wire + [AskToggle(c.agentId.value)])
  }

  function Activate(c: Card): Card {
    c.(approveProblem := None, toggleProblem := None, approving := true, wire := c.wire + [AskApprove])
  }

  function Apply(c: Card, e: Event): Card {
    match e
    case Press =>
      if c.enabled || c.approving || c.toggling then c
      else if c.approved then RunToggle(c) else Activate(c)
    case ApproveAnswers(ok, merged, softDenied) =>
      if !c.approving then c else
      var d := c.(approving := false, wire := c.wire + [ApproveAnswer(ok, merged, softDenied)]);
      if !ok || !merged then d.(approveProblem := Some(if softDenied then SoftDenied else NotMerged))
      else RunToggle(d.(approved := true))
    case ApproveFails(why) =>
      if !c.approving then c else
      c.(approving := false, wire := c.wire + [ApproveError(why)],
         approveProblem := Some(
           match why case NotReady => ApproveDoorSilent case RaceLost => Taken case OtherRefusal => NotApproved))
    case ToggleAnswers(stillOff) =>
      if !c.toggling then c else
      var d := c.(toggling := false, wire := c.wire + [ToggleAnswer(stillOff)]);
      if stillOff then d.(toggleProblem := Some(StayedOff)) else d.(enabled := true)
    case ToggleFails(why) =>
      if !c.toggling then c else
      c.(toggling := false, wire := c.wire + [ToggleError(why)],
         toggleProblem := Some(if why.NotReady? then ToggleDoorSilent else NotSwitched))
  }

  function After(c: Card, es: seq<Event>): Card {
    if es == [] then c else Apply(After(c, es[..|es| - 1]), es[|es| - 1])
  }

  /**
   * What a press does, in any state of the card: nothing once enabled or while a request is out;
   * before the merge it asks for the approval and takes both problems down; after it, it asks to
   * enable and takes that step's problem down, or says there is no file.
   */
  lemma PressMeans(c: Card)
    ensures var d, idle := Apply(c, Press), !c.enabled && !c.approving && !c.toggling;
            && (!idle ==> d == c)
            && (idle && !c.approved ==>
                  && d.wire == c.wire + [AskApprove] && d.approving && !d.toggling
                  && d.approveProblem.None? && d.toggleProblem.None?)
            && (idle && c.approved && c.agentId.Some? ==>
                  && d.wire == c.wire + [AskToggle(c.agentId.value)] && d.toggling && !d.approving
                  && d.approveProblem == c.approveProblem && d.toggleProblem.None?)
            && (idle && c.approved && c.agentId.None? ==> d == c.(toggleProblem := Some(NoFile)))
  {
  }

  // ------------------------------------------------- the conversations that are allowed

  predicate Merges(e: Entry) {
    e.ApproveAnswer? && e.ok && e.merged
  }

  predicate Switches(e: Entry) {
    e.ToggleAnswer? && !e.stillOff
  }

  predicate Merged(wire: seq<Entry>) {
    exists i :: 0 <= i < |wire| && Merges(wire[i])
  }

  predicate Switched(wire: seq<Entry>) {
    exists i :: 0 <= i < |wire| && Switches(wire[i])
  }

  predicate Asks(e: Entry) {
    e.AskApprove? || e.AskToggle?
  }

  predicate Approving(wire: seq<Entry>) {
    wire != [] && wire[|wire| - 1].AskApprove?
  }

  predicate Toggling(wire: seq<Entry>) {
    wire != [] && wire[|wire| - 1].AskToggle?
  }

  predicate JustMerged(wire: seq<Entry>) {
    wire != [] && Merges(wire[|wire| - 1])
  }

  /** A request is waiting for its answer. */
  predicate Waiting(wire: seq<Entry>) {
    Approving(wire) || Toggling(wire)
  }

  /**
   * A request waits for the answer to the one before it; approval is asked until it merges and
   * never after; enabling is asked only after that and until it takes.
   */
  predicate Allowed(agentId: Option<string>, before: seq<Entry>, e: Entry) {
    match e
    case AskApprove => !Waiting(before) && !Merged(before)
    case AskToggle(id) => agentId == Some(id) && Merged(before) && !Waiting(before) && !Switched(before)
    case ApproveAnswer(_, _, _) => Approving(before)
    case ApproveError(_) => Approving(before)
    case ToggleAnswer(_) => Toggling(before)
    case ToggleError(_) => Toggling(before)
  }

  predicate Legal(agentId: Option<string>, wire: seq<Entry>) {
    forall i :: 0 <= i < |wire| ==> Allowed(agentId, wire[..i], wire[i])
  }

  /** The card's flags are what the wire says. */
  predicate Faithful(c: Card) {
    && Legal(c.agentId, c.wire)
    && c.approved == Merged(c.wire) && c.enabled == Switched(c.wire)
    && c.approving == Approving(c.wire)
    && c.toggling == Toggling(c.wire)
    && (c.agentId.Some? ==> !JustMerged(c.wire))
  }

  lemma OneMore(agentId: Option<string>, wire: seq<Entry>, e: Entry)
    requires Legal(agentId, wire) && Allowed(agentId, wire, e)
    ensures Legal(agentId, wire + [e])
    ensures Merged(wire + [e]) == (Merged(wire) || Merges(e))
    ensures Switched(wire + [e]) == (Switched(wire) || Switches(e))
  {
    var all := wire + [e];
    assert all[|wire|] == e && all[..|wire|] == wire;
    assert forall i :: 0 <= i < |wire| ==> all[i] == wire[i];
    forall i | 0 <= i < |all| ensures Allowed(agentId, all[..i], all[i]) {
      if i < |wire| { assert all[..i] == wire[..i]; }
    }
    if Merged(wire) { var i :| 0 <= i < |wire| && Merges(wire[i]); assert Merges(all[i]); }
    if Switched(wire) { var i :| 0 <= i < |wire| && Switches(wire[i]); assert Switches(all[i]); }
  }

  lemma OneMoreMerged(agentId: Option<string>, front: seq<Entry>, e: Entry)
    requires Legal(agentId, front) && Allowed(agentId, front, e)
    requires Switched(front) ==> front != [] && Merged(front) && Switches(front[|front| - 1])
    requires Toggling(front) ==> Merged(front)
    ensures e.AskApprove? ==> !Merged(front + [e])
    ensures e.AskToggle? ==> Merged(front + [e])
    ensures Switched(front + [e]) ==> Merged(front + [e]) && Switches(e)
  {
    OneMore(agentId, front, e);
  }

  lemma LegalPrefix(agentId: Option<string>, wire: seq<Entry>)
    requires Legal(agentId, wire) && wire != []
    ensures Legal(agentId, wire[..|wire| - 1])
  {
    var front := wire[..|wire| - 1];
    forall i | 0 <= i < |front| ensures Allowed(agentId, front[..i], front[i]) {
      assert front[..i] == wire[..i] && front[i] == wire[i];
    }
  }

  /** Nothing is asked or answered about approval after a merge. */
  lemma {:induction false} MergedConversation(agentId: Option<string>, wire: seq<Entry>)
    requires Legal(agentId, wire) && wire != []
    ensures wire[|wire| - 1].AskApprove? ==> !Merged(wire)
    ensures wire[|wire| - 1].AskToggle? ==> Merged(wire)
    ensures Switched(wire) ==> Merged(wire) && Switches(wire[|wire| - 1])
  {
    var front, e := wire[..|wire| - 1], wire[|wire| - 1];
    LegalPrefix(agentId, wire);
    assert Allowed(agentId, front, e);
    if front == [] {
    } else {
      MergedConversation(agentId, front);
    }
    OneMoreMerged(agentId, front, e);
    FrontAndLast(wire);
  }

  lemma ToggleIsFaithful(c: Card)
    requires Legal(c.agentId, c.wire) && Merged(c.wire) && !Switched(c.wire) && !Waiting(c.wire)
    requires c.approved && !c.enabled && !c.approving && !c.toggling
    ensures Faithful(RunToggle(c))
  {
    if c.agentId.Some? { OneMore(c.agentId, c.wire, AskToggle(c.agentId.value)); }
  }

  lemma PressIsFaithful(c: Card)
    requires Faithful(c)
    ensures Faithful(Apply(c, Press))
  {
    if !(c.enabled || c.approving || c.toggling) {
      if c.approved { ToggleIsFaithful(c); } else { OneMore(c.agentId, c.wire, AskApprove); }
    }
  }

  lemma ApproveAnswerIsFaithful(c: Card, ok: bool, merged: bool, softDenied: bool)
    requires Faithful(c) && c.approving
    ensures Faithful(Apply(c, ApproveAnswers(ok, merged, softDenied)))
  {
    var e := ApproveAnswer(ok, merged, softDenied);
    MergedConversation(c.agentId, c.wire);
    OneMore(c.agentId, c.wire, e);
    if ok && merged {
      ToggleIsFaithful(c.(approving := false, approved := true, wire := c.wire + [e]));
    }
  }

  lemma ToggleAnswerIsFaithful(c: Card, stillOff: bool)
    requires Faithful(c) && c.toggling
    ensures Faithful(Apply(c, ToggleAnswers(stillOff)))
  {
    MergedConversation(c.agentId, c.wire);
    OneMore(c.agentId, c.wire, ToggleAnswer(stillOff));
  }

  lemma {:induction false} ErrorIsFaithful(c: Card, e: Event)
    requires Faithful(c) && (e.ApproveFails? || e.ToggleFails?)
    ensures Faithful(Apply(c, e))
  {
    if c.approving && e.ApproveFails? { OneMore(c.agentId, c.wire, ApproveError(e.why)); }
    if c.toggling && e.ToggleFails? { OneMore(c.agentId, c.wire, ToggleError(e.why)); }
  }

  lemma StepIsFaithful(c: Card, e: Event)
    requires Faithful(c)
    ensures Faithful(Apply(c, e)) && Apply(c, e).agentId == c.agentId
  {
    match e {
      case Press => PressIsFaithful(c);
      case ApproveAnswers(ok, merged, soft) => if c.approving { ApproveAnswerIsFaithful(c, ok, merged, soft); }
      case ToggleAnswers(stillOff) => if c.toggling { ToggleAnswerIsFaithful(c, stillOff); }
      case ApproveFails(_) => ErrorIsFaithful(c, e);
      case ToggleFails(_) => ErrorIsFaithful(c, e);
    }
  }

  /**
   * For every run of presses and answers the wire carries an allowed conversation, and the card
   * says exactly what it says.
   */
  lemma {:induction false} CardIsFaithful(agentId: Option<string>, es: seq<Event>)
    ensures Faithful(After(NewCard(agentId), es)) && After(NewCard(agentId), es).agentId == agentId
  {
    if es == [] {
    } else {
      hide Faithful, Apply;
      CardIsFaithful(agentId, es[..|es| - 1]);
      StepIsFaithful(After(NewCard(agentId), es[..|es| - 1]), es[|es| - 1]);
    }
  }

  lemma AskedInOrder(agentId: Option<string>, w: seq<Entry>)
    requires Legal(agentId, w)
    ensures forall i :: 0 <= i < |w| && w[i].AskToggle? ==> exists j :: 0 <= j < i && Merges(w[j])
    ensures forall i, j :: 0 <= j < i < |w| && w[i].AskApprove? ==> !Merges(w[j])
    ensures forall i :: 0 < i < |w| && Asks(w[i]) ==> !Asks(w[i - 1])
    ensures Switched(w) <==> w != [] && Switches(w[|w| - 1])
    ensures Switched(w) ==> Merged(w)
  {
    forall i | 0 <= i < |w| && w[i].AskToggle? ensures exists j :: 0 <= j < i && Merges(w[j]) {
      var j :| 0 <= j < |w[..i]| && Merges(w[..i][j]);
      assert Merges(w[j]);
    }
    forall i, j | 0 <= j < i < |w| && w[i].AskApprove? ensures !Merges(w[j]) {
      assert w[..i][j] == w[j];
    }
    forall i | 0 < i < |w| && Asks(w[i]) ensures !Asks(w[i - 1]) {
      assert w[..i][|w[..i]| - 1] == w[i - 1];
    }
    if w != [] { MergedConversation(agentId, w); }
  }

  /**
   * Two-step activation. Whatever is pressed and whatever the daemon answers: an enable request
   * goes out only after an approval that was both accepted and merged; no approval goes out
   * after that; at most one request is unanswered; and the card says it is enabled exactly when
   * an enable request was granted, nothing having been sent since.
   */
  lemma {:induction false} EnablingFollowsAConfirmedMerge(agentId: Option<string>, es: seq<Event>)
    ensures var w := After(NewCard(agentId), es).wire;
            && (forall i :: 0 <= i < |w| && w[i].AskToggle? ==>
                  exists j :: 0 <= j < i && w[j].ApproveAnswer? && w[j].ok && w[j].merged)
            && (forall i, j :: 0 <= j < i < |w| && w[i].AskApprove? ==>
                  !(w[j].ApproveAnswer? && w[j].ok && w[j].merged))
            && (forall i :: 0 < i < |w| && (w[i].AskApprove? || w[i].AskToggle?) ==>
                  !w[i - 1].AskApprove? && !w[i - 1].AskToggle?)
    ensures var c := After(NewCard(agentId), es);
            && (c.enabled <==> c.wire != [] && c.wire[|c.wire| - 1].ToggleAnswer? && !c.wire[|c.wire| - 1].stillOff)
            && (c.enabled ==> c.approved)
  {
    CardIsFaithful(agentId, es);
    var c := After(NewCard(agentId), es);
    AskedInOrder(agentId, c.wire);
    hide After, Apply, Legal;
    forall i | 0 <= i < |c.wire| && c.wire[i].AskToggle?
      ensures exists j :: 0 <= j < i && c.wire[j].ApproveAnswer? && c.wire[j].ok && c.wire[j].merged
    {
      var j :| 0 <= j < i && Merges(c.wire[j]);
    }
    forall i | 0 < i < |c.wire| && (c.wire[i].AskApprove? || c.wire[i].AskToggle?)
      ensures !c.wire[i - 1].AskApprove? && !c.wire[i - 1].AskToggle?
    {
      assert Asks(c.wire[i]);
    }
  }

  // ------------------------------------------------- what the card tells about a failed step

  predicate AboutApproval(e: Entry) {
    e.AskApprove? || e.ApproveAnswer? || e.ApproveError?
  }

  /** The last thing said about approval stands at `i`. */
  predicate LastAboutApproval(wire: seq<Entry>, i: nat) {
    i < |wire| && AboutApproval(wire[i]) && forall j :: i < j < |wire| ==> !AboutApproval(wire[j])
  }

  /** The approval problem shown is the one this entry leaves. */
  predicate TellsOfApproval(problem: Option<ApproveProblem>, e: Entry) {
    && (e.AskApprove? ==> problem.None?)
    && (e.ApproveAnswer? && e.ok && e.merged ==> problem.None?)
    && (e.ApproveAnswer? && !(e.ok && e.merged) && e.softDenied ==> problem == Some(SoftDenied))
    && (e.ApproveAnswer? && !(e.ok && e.merged) && !e.softDenied ==> problem == Some(NotMerged))
    && (e.ApproveError? && e.why.NotReady? ==> problem == Some(ApproveDoorSilent))
    && (e.ApproveError? && e.why.RaceLost? ==> problem == Some(Taken))
    && (e.ApproveError? && e.why.OtherRefusal? ==> problem == Some(NotApproved))
  }

  /** The enabling problem shown is the one this entry, the last of the conversation, leaves. */
  predicate TellsOfEnabling(problem: Option<ToggleProblem>, agentId: Option<string>, e: Entry) {
    && (e.AskApprove? || e.AskToggle? || e.ApproveError? ==> problem.None?)
    && (e.ApproveAnswer? && e.ok && e.merged && agentId.None? ==> problem == Some(NoFile))
    && (e.ApproveAnswer? && !(e.ok && e.merged) ==> problem.None?)
    && (e.ToggleAnswer? && e.stillOff ==> problem == Some(StayedOff))
    && (e.ToggleAnswer? && !e.stillOff ==> problem.None?)
    && (e.ToggleError? && e.why.NotReady? ==> problem == Some(ToggleDoorSilent))
    && (e.ToggleError? && !e.why.NotReady? ==> problem == Some(NotSwitched))
  }

  ghost predicate Told(c: Card) {
    && (c.wire == [] ==> c.toggleProblem.None?)
    && (c.wire != [] ==> TellsOfEnabling(c.toggleProblem, c.agentId, c.wire[|c.wire| - 1]))
    && (forall i: nat :: LastAboutApproval(c.wire, i) ==> TellsOfApproval(c.approveProblem, c.wire[i]))
    && ((forall i :: 0 <= i < |c.wire| ==> !AboutApproval(c.wire[i])) ==> c.approveProblem.None?)
  }

  lemma ApprovalSpoken(wire: seq<Entry>, e: Entry)
    ensures AboutApproval(e) ==> forall i: nat :: LastAboutApproval(wire + [e], i) <==> i == |wire|
    ensures !AboutApproval(e) ==> forall i: nat :: LastAboutApproval(wire + [e], i) <==> LastAboutApproval(wire, i)
    ensures !AboutApproval(e) && (forall i :: 0 <= i < |wire + [e]| ==> !AboutApproval((wire + [e])[i])) ==>
              forall i :: 0 <= i < |wire| ==> !AboutApproval(wire[i])
  {
    var all := wire + [e];
    assert all[|wire|] == e && forall i :: 0 <= i < |wire| ==> all[i] == wire[i];
  }

  /** An entry that is not about approval leaves what was said of it. */
  lemma ApprovalStaysTold(c: Card, d: Card, e: Entry)
    requires Told(c) && d.wire == c.wire + [e] && d.agentId == c.agentId
    requires if AboutApproval(e) then TellsOfApproval(d.approveProblem, e) else d.approveProblem == c.approveProblem
    requires TellsOfEnabling(d.toggleProblem, d.agentId, e)
    ensures Told(d)
  {
    ApprovalSpoken(c.wire, e);
    assert (c.wire + [e])[|c.wire|] == e;
    assert forall i :: 0 <= i < |c.wire| ==> d.wire[i] == c.wire[i];
  }

  /** Without a worker's identifier nothing is allowed after a merge. */
  lemma MergeIsLast(front: seq<Entry>, e: Entry)
    requires Allowed(None, front, e) && front != [] && Merged(front)
    ensures !Merges(front[|front| - 1])
  {
  }

  lemma {:induction false} NothingAfterMerge(wire: seq<Entry>)
    requires Legal(None, wire) && Merged(wire)
    ensures Merges(wire[|wire| - 1])
  {
    var front, e := wire[..|wire| - 1], wire[|wire| - 1];
    LegalPrefix(None, wire);
    assert Allowed(None, front, e);
    hide Allowed;
    if Merged(front) {
      NothingAfterMerge(front);
      MergeIsLast(front, e);
    } else {
      OneMore(None, front, e);
      FrontAndLast(wire);
    }
  }

  lemma NoWorkerEndsInMerge(c: Card)
    requires Faithful(c) && c.agentId.None? && c.approved
    ensures c.wire != [] && Merges(c.wire[|c.wire| - 1])
  {
    NothingAfterMerge(c.wire);
  }

  lemma PressIsTold(c: Card)
    requires Faithful(c) && Told(c)
    ensures Told(Apply(c, Press))
  {
    if !(c.enabled || c.approving || c.toggling) {
      if !c.approved {
        ApprovalStaysTold(c, Activate(c), AskApprove);
      } else if c.agentId.Some? {
        ApprovalStaysTold(c, RunToggle(c), AskToggle(c.agentId.value));
      } else {
        NoWorkerEndsInMerge(c);
      }
    }
  }

  lemma ApproveAnswerIsTold(c: Card, ok: bool, merged: bool, softDenied: bool)
    requires Faithful(c) && Told(c) && c.approving
    ensures Told(Apply(c, ApproveAnswers(ok, merged, softDenied)))
  {
    var e, d := ApproveAnswer(ok, merged, softDenied), Apply(c, ApproveAnswers(ok, merged, softDenied));
    if ok && merged && c.agentId.Some? {
      var mid := c.(approving := false, approved := true, wire := c.wire + [e]);
      ApprovalStaysTold(c, mid, e);
      ApprovalStaysTold(mid, d, AskToggle(c.agentId.value));
    } else {
      ApprovalStaysTold(c, d, e);
    }
  }

  lemma StepIsTold(c: Card, e: Event)
    requires Faithful(c) && Told(c)
    ensures Told(Apply(c, e))
  {
    match e {
      case Press => PressIsTold(c);
      case ApproveAnswers(ok, merged, soft) => if c.approving { ApproveAnswerIsTold(c, ok, merged, soft); }
      case ApproveFails(why) => if c.approving { ApprovalStaysTold(c, Apply(c, e), ApproveError(why)); }
      case ToggleAnswers(stillOff) => if c.toggling { ApprovalStaysTold(c, Apply(c, e), ToggleAnswer(stillOff)); }
      case ToggleFails(why) => if c.toggling { ApprovalStaysTold(c, Apply(c, e), ToggleError(why)); }
    }
  }

  lemma {:induction false} RunIsTold(agentId: Option<string>, es: seq<Event>)
    ensures Told(After(NewCard(agentId), es))
  {
    if es == [] {
    } else {
      hide Faithful, Apply;
      RunIsTold(agentId, es[..|es| - 1]);
      CardIsFaithful(agentId, es[..|es| - 1]);
      StepIsTold(After(NewCard(agentId), es[..|es| - 1]), es[|es| - 1]);
    }
  }

  /**
   * What the card tells a person about a failed step is what the daemon last said about it. For
   * every run: the approval problem is that of the last word about approval, and none while a
   * fresh request is out; the enabling problem is that of the last word of all, none while a
   * request is out; and the card says there is no file exactly when the approval merged and the
   * draft yields no worker's identifier.
   */
  lemma {:induction false} ProblemsAreTheDaemonsLastWord(agentId: Option<string>, es: seq<Event>)
    ensures var c := After(NewCard(agentId), es);
            && (forall i: nat :: LastAboutApproval(c.wire, i) ==> TellsOfApproval(c.approveProblem, c.wire[i]))
            && (c.wire == [] ==> c.approveProblem.None? && c.toggleProblem.None?)
            && (c.wire != [] ==> TellsOfEnabling(c.toggleProblem, agentId, c.wire[|c.wire| - 1]))
            && (c.toggleProblem == Some(NoFile) <==>
                  && agentId.None?
                  && exists i :: 0 <= i < |c.wire| && c.wire[i].ApproveAnswer? && c.wire[i].ok && c.wire[i].merged)
  {
    RunIsTold(agentId, es);
    CardIsFaithful(agentId, es);
    var c := After(NewCard(agentId), es);
    if i :| 0 <= i < |c.wire| && c.wire[i].ApproveAnswer? && c.wire[i].ok && c.wire[i].merged {
      assert Merges(c.wire[i]);
    }
    if Merged(c.wire) {
      var i :| 0 <= i < |c.wire| && Merges(c.wire[i]);
      assert c.wire[i].ApproveAnswer? && c.wire[i].ok && c.wire[i].merged;
      if agentId.None? { NothingAfterMerge(c.wire); }
    }
    if c.wire != [] && agentId.Some? { assert !JustMerged(c.wire); }
  }

  // ------------------------------------------------- and every allowed conversation happens

  function Cause(before: seq<Entry>, e: Entry): seq<Event> {
    match e
    case AskApprove => [Press]
    case AskToggle(_) => if JustMerged(before) then [] else [Press]
    case ApproveAnswer(ok, merged, softDenied) => [ApproveAnswers(ok, merged, softDenied)]
    case ApproveError(why) => [ApproveFails(why)]
    case ToggleAnswer(stillOff) => [ToggleAnswers(stillOff)]
    case ToggleError(why) => [ToggleFails(why)]
  }

  function Causes(wire: seq<Entry>): seq<Event> {
    if wire == [] then [] else
    Causes(wire[..|wire| - 1]) + Cause(wire[..|wire| - 1], wire[|wire| - 1])
  }

  lemma AfterCause(c: Card, es: seq<Event>, more: seq<Event>)
    requires |more| <= 1
    ensures After(c, es + more) == if more == [] then After(c, es) else Apply(After(c, es), more[0])
  {
    if more == [] { assert es + more == es; } else { assert (es + more)[..|es|] == es; }
  }

  /** What the run has sent so far: a merge already drags its enable request behind it. */
  function Sent(agentId: Option<string>, wire: seq<Entry>): seq<Entry> {
    if agentId.Some? && JustMerged(wire) then wire + [AskToggle(agentId.value)] else wire
  }

  lemma CauseDrives(c: Card, front: seq<Entry>, e: Entry)
    requires Faithful(c) && c.wire == Sent(c.agentId, front) && Allowed(c.agentId, front, e)
    ensures var cause := Cause(front, e);
            var d := if cause == [] then c else Apply(c, cause[0]);
            d.wire == Sent(c.agentId, front + [e])
  {
    if JustMerged(front) {
      assert Merged(front);
    }
  }

  lemma CausesStep(agentId: Option<string>, front: seq<Entry>, e: Entry)
    requires After(NewCard(agentId), Causes(front)).wire == Sent(agentId, front) && Allowed(agentId, front, e)
    ensures After(NewCard(agentId), Causes(front) + Cause(front, e)).wire == Sent(agentId, front + [e])
  {
    CardIsFaithful(agentId, Causes(front));
    AfterCause(NewCard(agentId), Causes(front), Cause(front, e));
    CauseDrives(After(NewCard(agentId), Causes(front)), front, e);
  }

  lemma CausesOfSum(front: seq<Entry>, e: Entry)
    ensures Causes(front + [e]) == Causes(front) + Cause(front, e)
  {
    assert (front + [e])[..|front|] == front;
  }

  lemma DriveOneMore(agentId: Option<string>, front: seq<Entry>, e: Entry)
    requires After(NewCard(agentId), Causes(front)).wire == Sent(agentId, front) && Allowed(agentId, front, e)
    ensures After(NewCard(agentId), Causes(front + [e])).wire == Sent(agentId, front + [e])
  {
    CausesOfSum(front, e);
    CausesStep(agentId, front, e);
  }

  lemma {:induction false} CausesDrive(agentId: Option<string>, wire: seq<Entry>)
    requires Legal(agentId, wire)
    ensures After(NewCard(agentId), Causes(wire)).wire == Sent(agentId, wire)
  {
    if wire == [] {
    } else {
      var front, e := wire[..|wire| - 1], wire[|wire| - 1];
      LegalPrefix(agentId, wire);
      assert Allowed(agentId, front, e);
      CausesDrive(agentId, front);
      DriveOneMore(agentId, front, e);
      FrontAndLast(wire);
    }
  }

  /**
   * Conversely every allowed conversation, in which a merge is followed at once by its enable
   * request, is the wire of some run.
   */
  lemma EveryAllowedConversationHappens(agentId: Option<string>, wire: seq<Entry>)
    requires Legal(agentId, wire) && (agentId.Some? ==> !JustMerged(wire))
    ensures exists es :: After(NewCard(agentId), es).wire == wire
  {
    CausesDrive(agentId, wire);
    assert After(NewCard(agentId), Causes(wire)).wire == wire;
  }

  // ------------------------------------------------- the card as it runs

  class DraftCard {
    const agentId: Option<string>
    var approving: bool
    var toggling: bool
    var approved: bool
    var enabled: bool
    var approveProblem: Option<ApproveProblem>
    var toggleProblem: Option<ToggleProblem>
    var wire: seq<Entry>

    ghost function View(): Card
      reads this
    {
      Card(agentId, approving, toggling, approved, enabled, approveProblem, toggleProblem, wire)
    }

    constructor (agentId: Option<string>)
      ensures View() == NewCard(agentId)
    {
      this.agentId := agentId;
      approving, toggling, approved, enabled := false, false, false, false;
      approveProblem, toggleProblem, wire := None, None, [];
    }

    method RunToggleStep()
      modifies this
      ensures View() == RunToggle(old(View()))
      ensures agentId.None? ==> toggleProblem == Some(NoFile) && wire == old(wire) && toggling == old(toggling)
      ensures agentId.Some? ==>
                toggleProblem == None && toggling && wire == old(wire) + [AskToggle(agentId.value)]
    {
      if agentId.None? {
        toggleProblem := Some(NoFile);
        return;
      }
      toggleProblem := None;
      toggling := true;
      wire := wire + [AskToggle(agentId.value)];
    }

    method ActivateStep()
      modifies this
      ensures View() == Activate(old(View()))
      ensures approveProblem == None && toggleProblem == None && approving && wire == old(wire) + [AskApprove]
    {
      approveProblem, toggleProblem := None, None;
      approving := true;
      wire := wire + [AskApprove];
    }

    /**
     * The button: absent once enabled, dead while a request is out, and after the merge it repeats
     * the second step alone.
     */
    method PressButton()
      modifies this
      ensures View() == Apply(old(View()), Press)
    {
      if enabled || approving || toggling { return; }
      if approved { RunToggleStep(); } else { ActivateStep(); }
    }

    method OnApproveSuccess(ok: bool, merged: bool, softDenied: bool)
      requires approving
      modifies this
      ensures View() == Apply(old(View()), ApproveAnswers(ok, merged, softDenied))
      ensures !approving
      ensures !(ok && merged) && softDenied ==> approveProblem == Some(SoftDenied)
      ensures !(ok && merged) && !softDenied ==> approveProblem == Some(NotMerged)
      ensures !(ok && merged) ==> approved == old(approved) && toggling == old(toggling)
      ensures ok && merged ==> approved && approveProblem == old(approveProblem)
      ensures ok && merged ==> if agentId.Some? then toggling else toggleProblem == Some(NoFile)
    {
      approving := false;
      wire := wire + [ApproveAnswer(ok, merged, softDenied)];
      if !ok || !merged {
        approveProblem := Some(if softDenied then SoftDenied else NotMerged);
        return;
      }
      approved := true;
      RunToggleStep();
    }

    method OnToggleSuccess(stillOff: bool)
      requires toggling
      modifies this
      ensures View() == Apply(old(View()), ToggleAnswers(stillOff))
      ensures !toggling
      ensures stillOff ==> toggleProblem == Some(StayedOff) && enabled == old(enabled)
      ensures !stillOff ==> enabled && toggleProblem == old(toggleProblem)
    {
      toggling := false;
      wire := wire + [ToggleAnswer(stillOff)];
      if stillOff {
        toggleProblem := Some(StayedOff);
        return;
      }
      enabled := true;
    }
  }
}
