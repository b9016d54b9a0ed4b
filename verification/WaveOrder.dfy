/** spa/src/shell/SystemConsole.tsx: a wave is held or released by two presses. */
module WaveOrder {
  import opened Text

  datatype Action = Hold | Release

  datatype Order = Order(phase: string, wave: string, action: Action)

  /** What happened to orders, in time: asked, taken back, sent to the daemon, answered by it. */
  datatype Entry = Asked(order: Order) | Cancelled | Called(order: Order) | Settled

  datatype Console = Console(pending: Option<Order>, calling: bool, log: seq<Entry>)

  datatype Event =
    | Ask(phase: Option<string>, wave: string, action: Action)
    | Confirm
    | Cancel
    | CallEnds

  const QUIET: Console := Console(None, false, [])

  function Apply(c: Console, e: Event): Console {
    match e
    case Ask(phase, wave, action) =>
      if phase.None? || phase.value == "" || c.calling then c else
      var order := Order(phase.value, wave, action);
      c.(pending := Some(order), log := c.log + [Asked(order)])
    case Confirm =>
      if c.pending.None? || c.calling then c
      else c.(calling := true, log := c.log + [Called(c.pending.value)])
    case Cancel =>
      if c.pending.None? || c.calling then c
      else c.(pending := None, log := c.log + [Cancelled])
    case CallEnds =>
      if !c.calling then c else c.(calling := false, pending := None, log := c.log + [Settled])
  }

  function After(c: Console, es: seq<Event>): Console {
    if es == [] then c else Apply(After(c, es[..|es| - 1]), es[|es| - 1])
  }

  // ------------------------------------------------- the histories that are allowed

  predicate InFlight(log: seq<Entry>) {
    log != [] && log[|log| - 1].Called?
  }

  predicate Allowed(before: seq<Entry>, e: Entry) {
    match e
    case Asked(order) => order.phase != "" && !InFlight(before)
    case Cancelled => before != [] && before[|before| - 1].Asked?
    case Called(order) => before != [] && before[|before| - 1] == Asked(order)
    case Settled => InFlight(before)
  }

  predicate Legal(log: seq<Entry>) {
    forall i :: 0 <= i < |log| ==> Allowed(log[..i], log[i])
  }

  /** The order that waits for its second press, or is on its way, according to the log. */
  function Standing(log: seq<Entry>): Option<Order> {
    if log == [] then None
    else match log[|log| - 1]
      case Asked(order) => Some(order)
      case Called(order) => Some(order)
      case Cancelled => None
      case Settled => None
  }

  predicate Faithful(c: Console) {
    Legal(c.log) && c.pending == Standing(c.log) && c.calling == InFlight(c.log)
  }

  lemma OneMore(log: seq<Entry>, e: Entry)
    requires Legal(log) && Allowed(log, e)
    ensures Legal(log + [e])
  {
    var all := log + [e];
    forall i | 0 <= i < |all| ensures Allowed(all[..i], all[i]) {
      if i < |log| { assert all[..i] == log[..i]; } else { assert all[..i] == log; }
    }
  }

  lemma {:induction false} StepIsFaithful(c: Console, e: Event)
    requires Faithful(c)
    ensures Faithful(Apply(c, e))
  {
    var d := Apply(c, e);
    if d.log != c.log {
      var entry := d.log[|c.log|];
      assert d.log == c.log + [entry];
      assert Allowed(c.log, entry);
      OneMore(c.log, entry);
    }
  }

  lemma {:induction false} ConsoleIsFaithful(es: seq<Event>)
    ensures Faithful(After(QUIET, es))
  {
    if es == [] {
    } else {
      ConsoleIsFaithful(es[..|es| - 1]);
      StepIsFaithful(After(QUIET, es[..|es| - 1]), es[|es| - 1]);
    }
  }

  /** Nothing about orders happens strictly between the two places. */
  predicate Untouched(log: seq<Entry>, j: int, i: int)
    requires 0 <= j < i < |log|
  {
    forall n :: j < n < i ==> !log[n].Asked? && !log[n].Cancelled? && !log[n].Called?
  }

  predicate Backs(log: seq<Entry>, j: int, i: int) {
    0 <= j < i < |log| && log[i].Called? && log[j] == Asked(log[i].order) && Untouched(log, j, i)
  }

  /**
   * Two-press orders. In every run each call to the daemon is backed by exactly one earlier ask
   * for the same phase, wave and action, with no other ask, no cancel and no call in between;
   * one ask backs at most one call; a call that comes after a cancel, or after an earlier call,
   * is backed by an ask made since, so an ask that was cancelled or used up is never called on
   * again; and no call is made while another is unanswered.
   */
  lemma EveryCallAnswersOneAsk(es: seq<Event>)
    ensures var log := After(QUIET, es).log;
            && (forall i :: 0 <= i < |log| && log[i].Called? ==>
                  exists j :: 0 <= j < i && Backs(log, j, i) && log[j] == Asked(log[i].order)
                    && forall n :: j < n < i ==> !log[n].Asked? && !log[n].Cancelled? && !log[n].Called?)
            && (forall i, j, k :: Backs(log, j, i) && Backs(log, k, i) ==> j == k)
            && (forall i, k, j :: Backs(log, j, i) && Backs(log, j, k) ==> i == k)
            && (forall c, i :: 0 <= c < i < |log| && log[i].Called? && (log[c].Cancelled? || log[c].Called?) ==>
                  exists j :: c < j && Backs(log, j, i))
            && (forall i :: 0 <= i < |log| - 1 && log[i].Called? ==> log[i + 1].Settled?)
  {
    ConsoleIsFaithful(es);
    var log := After(QUIET, es).log;
    forall i | 0 <= i < |log| && log[i].Called? ensures Backs(log, i - 1, i) {
      assert Allowed(log[..i], log[i]);
    }
    forall i, j | Backs(log, j, i) ensures j == i - 1 {
      assert Backs(log, i - 1, i);
    }
    forall c, i | 0 <= c < i < |log| && log[i].Called? && (log[c].Cancelled? || log[c].Called?)
      ensures exists j :: c < j && Backs(log, j, i)
    {
      assert Backs(log, i - 1, i) && c != i - 1;
    }
    forall i | 0 <= i < |log| - 1 && log[i].Called? ensures log[i + 1].Settled? {
      assert Allowed(log[..i + 1], log[i + 1]);
      assert log[..i + 1][i] == log[i];
    }
  }

  // ------------------------------------------------- and every allowed history happens

  function Cause(e: Entry): Event {
    match e
    case Asked(order) => Ask(Some(order.phase), order.wave, order.action)
    case Cancelled => Cancel
    case Called(_) => Confirm
    case Settled => CallEnds
  }

  function Causes(log: seq<Entry>): (r: seq<Event>)
    ensures |r| == |log| && forall i :: 0 <= i < |r| ==> r[i] == Cause(log[i])
  {
    seq(|log|, i requires 0 <= i < |log| => Cause(log[i]))
  }

  lemma HistoryGrows(front: seq<Entry>, e: Entry)
    requires After(QUIET, Causes(front)).log == front && Allowed(front, e)
    ensures After(QUIET, Causes(front + [e])).log == front + [e]
  {
    var es := Causes(front + [e]);
    assert es[|es| - 1] == Cause(e);
    assert es[..|es| - 1] == Causes(front);
    ConsoleIsFaithful(Causes(front));
  }

  /** Conversely every allowed history is the log of some run. */
  lemma {:induction false} EveryAllowedHistoryHappens(log: seq<Entry>)
    requires Legal(log)
    ensures After(QUIET, Causes(log)).log == log
  {
    if log == [] {
    } else {
      var n := |log| - 1;
      var front := log[..n];
      forall i | 0 <= i < n ensures Allowed(front[..i], front[i]) {
        assert front[..i] == log[..i] && front[i] == log[i];
      }
      EveryAllowedHistoryHappens(front);
      assert Allowed(front, log[n]);
      HistoryGrows(front, log[n]);
      FrontAndLast(log);
    }
  }

  // ------------------------------------------------- the console as it runs

  class WaveConsole {
    var pendingWave: Option<Order>
    var calling: bool
    var log: seq<Entry>

    ghost function View(): Console
      reads this
    {
      Console(pendingWave, calling, log)
    }

    constructor ()
      ensures View() == QUIET
    {
      pendingWave, calling, log := None, false, [];
    }

    /** First press: nothing leaves the window. */
    method AskWave(phase: Option<string>, wave: string, action: Action)
      modifies this
      ensures View() == Apply(old(View()), Ask(phase, wave, action))
      ensures calling == old(calling)
      ensures phase.Some? && phase.value != "" && !calling ==> pendingWave == Some(Order(phase.value, wave, action))
      ensures phase.None? || phase.value == "" || calling ==> pendingWave == old(pendingWave)
    {
      if phase.None? || phase.value == "" || calling { return; }
      pendingWave := Some(Order(phase.value, wave, action));
      log := log + [Asked(pendingWave.value)];
    }

    /** Second press: the only one that calls. */
    method ConfirmWave()
      modifies this
      ensures View() == Apply(old(View()), Confirm)
      ensures pendingWave == old(pendingWave) && calling == (old(calling) || pendingWave.Some?)
    {
      if pendingWave.None? || calling { return; }
      calling := true;
      log := log + [Called(pendingWave.value)];
    }

    method CancelWave()
      modifies this
      ensures View() == Apply(old(View()), Cancel)
      ensures calling == old(calling) && pendingWave == if calling then old(pendingWave) else None
    {
      if pendingWave.None? || calling { return; }
      pendingWave := None;
      log := log + [Cancelled];
    }

    /** Success and refusal alike take the order down. */
    method OnAnswer()
      requires calling
      modifies this
      ensures View() == Apply(old(View()), CallEnds)
      ensures pendingWave == None && !calling
    {
      calling, pendingWave := false, None;
      log := log + [Settled];
    }
  }
}
