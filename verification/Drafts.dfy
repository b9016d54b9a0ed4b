/** spa/src/shell/useComposerDraft.ts: one mounted composer and the browser storage it writes through. */
module Drafts {
  import opened Text

  const PREFIX: string := "sma.draft."

  /** A text together with the surface it was typed on. */
  datatype Draft = Draft(surface: string, text: string)

  /**
   * `queue` holds the updates set since the last render, `dirty` says the effect has a draft to
   * write, `shown` is what the last render returned. A reload of the page leaves the storage only.
   */
  datatype Hook = Hook(
    storage: map<string, string>, mounted: bool, draft: Draft, queue: seq<Draft>, dirty: bool, shown: string)

  /** `readable` and `writable` say whether the browser lets this access through. */
  datatype Event =
    | Mount(surface: string, readable: bool)
    | SetText(surface: string, text: string)
    | Render(surface: string, readable: bool, writable: bool)
    | Effect(writable: bool)
    | Unmount(writable: bool)
    | Reload

  function Fresh(storage: map<string, string>): Hook {
    Hook(storage, false, Draft("", ""), [], false, "")
  }

  function Read(storage: map<string, string>, surface: string, readable: bool): string {
    if readable && PREFIX + surface in storage then storage[PREFIX + surface] else ""
  }

  function Write(storage: map<string, string>, draft: Draft, writable: bool): map<string, string> {
    if !writable then storage
    else if draft.text == "" then storage - {PREFIX + draft.surface}
    else storage[PREFIX + draft.surface := draft.text]
  }

  /** The effect: it runs when the pair changed since the last commit, and always before the next render. */
  function Flush(h: Hook, writable: bool): Hook {
    if h.mounted && h.dirty then h.(storage := Write(h.storage, h.draft, writable), dirty := false) else h
  }

  function Pending(h: Hook): Draft {
    if h.queue == [] then h.draft else h.queue[|h.queue| - 1]
  }

  function Rendered(h: Hook, surface: string, readable: bool): Hook {
    var d := Pending(h);
    var next := if d.surface != surface then Draft(surface, Read(h.storage, surface, readable)) else d;
    h.(draft := next, queue := [], dirty := h.queue != [] || d.surface != surface, shown := next.text)
  }

  function Apply(h: Hook, e: Event): Hook {
    match e
    case Mount(surface, readable) =>
      if h.mounted then h else
      var text := Read(h.storage, surface, readable);
      Hook(h.storage, true, Draft(surface, text), [], true, text)
    case SetText(surface, text) =>
      if h.mounted then h.(queue := h.queue + [Draft(surface, text)]) else h
    case Render(surface, readable, writable) =>
      if h.mounted then Rendered(Flush(h, writable), surface, readable) else h
    case Effect(writable) => Flush(h, writable)
    case Unmount(writable) =>
      if h.mounted then Flush(h, writable).(mounted := false, queue := []) else h
    case Reload => Fresh(h.storage)
  }

  function After(h: Hook, es: seq<Event>): Hook {
    if es == [] then h else Apply(After(h, es[..|es| - 1]), es[|es| - 1])
  }

  /** A refused access changes nothing in the storage, and what cannot be read is shown as no text. */
  lemma RefusedAccessChangesNothing(h: Hook, surface: string)
    ensures Apply(h, Effect(false)).storage == h.storage
    ensures Apply(h, Unmount(false)).storage == h.storage
    ensures forall readable :: Apply(h, Render(surface, readable, false)).storage == h.storage
    ensures forall readable :: Apply(h, Mount(surface, readable)).storage == h.storage
    ensures !h.mounted ==> Apply(h, Mount(surface, false)).shown == ""
    ensures h.mounted && Pending(h).surface != surface ==>
              forall writable :: Apply(h, Render(surface, false, writable)).shown == ""
  {
  }

  /** An access that works writes the pair under its own key, and an empty text erases the key. */
  lemma EffectWritesThePair(h: Hook)
    requires h.mounted && h.dirty
    ensures var key := "sma.draft." + h.draft.surface;
            var now := Apply(h, Effect(true)).storage;
            && (h.draft.text == "" ==> now == h.storage - {key})
            && (h.draft.text != "" ==> now == h.storage[key := h.draft.text])
  {
  }

  /**
   * The effect runs once for each change of the pair: after it, and after a render that changed
   * nothing, there is nothing to write.
   */
  lemma EffectRunsOncePerChange(h: Hook, surface: string, readable: bool, writable: bool)
    ensures !h.mounted || !h.dirty ==> Apply(h, Effect(writable)) == h
    ensures h.mounted ==> !Apply(h, Effect(writable)).dirty && Apply(h, Effect(writable)).draft == h.draft
    ensures h.mounted ==>
              (Apply(h, Render(surface, readable, writable)).dirty <==> h.queue != [] || h.draft.surface != surface)
    ensures !h.mounted ==> Apply(h, Mount(surface, readable)).dirty
  {
  }

  /** A render leaves the pair of its own surface: the last text set for it since, or its stored one. */
  lemma RenderMeans(h: Hook, surface: string, readable: bool, writable: bool)
    requires h.mounted
    ensures var t := Apply(h, Render(surface, readable, writable));
            var last := if h.queue == [] then h.draft else h.queue[|h.queue| - 1];
            var stored := Apply(h, Effect(writable)).storage;
            && t.mounted && t.queue == [] && t.draft.surface == surface && t.shown == t.draft.text
            && t.storage == stored
            && (last.surface == surface ==> t.draft == last)
            && (last.surface != surface ==>
                  var key := "sma.draft." + surface;
                  t.draft.text == if readable && key in stored then stored[key] else "")
  {
  }

  /** A composer that is not mounted only waits to be mounted, and leaving or reloading drops what was not rendered. */
  lemma UnmountedIsInert(h: Hook, surface: string, text: string, flag: bool)
    ensures !h.mounted ==>
              && Apply(h, SetText(surface, text)) == h && Apply(h, Render(surface, flag, flag)) == h
              && Apply(h, Effect(flag)) == h && Apply(h, Unmount(flag)) == h
    ensures h.mounted ==> Apply(h, Mount(surface, flag)) == h
    ensures h.mounted ==> !Apply(h, Unmount(flag)).mounted && Apply(h, Unmount(flag)).queue == []
    ensures !Apply(h, Reload).mounted && Apply(h, Reload).queue == [] && Apply(h, Reload).storage == h.storage
    ensures !h.mounted ==>
              var t := Apply(h, Mount(surface, flag));
              t.mounted && t.queue == [] && t.draft.surface == surface && t.shown == t.draft.text
  {
  }

  // ------------------------------------------------- a text stays under its own key

  lemma KeysDiffer(a: string, b: string)
    requires PREFIX + a == PREFIX + b
    ensures a == b
  {
    assert (PREFIX + a)[|PREFIX|..] == a && (PREFIX + b)[|PREFIX|..] == b;
  }

  /** The text was stored for this surface before the run, or the run set it for this very surface. */
  ghost predicate Own(storage: map<string, string>, es: seq<Event>, surface: string, text: string) {
    || (PREFIX + surface in storage && storage[PREFIX + surface] == text)
    || exists i :: 0 <= i < |es| && es[i] == SetText(surface, text)
  }

  ghost predicate OwnOrEmpty(storage: map<string, string>, es: seq<Event>, d: Draft) {
    d.text == "" || Own(storage, es, d.surface, d.text)
  }

  ghost predicate AllOwn(storage: map<string, string>, es: seq<Event>) {
    var h := After(Fresh(storage), es);
    && (h.mounted ==> OwnOrEmpty(storage, es, h.draft))
    && (forall i :: 0 <= i < |h.queue| ==> OwnOrEmpty(storage, es, h.queue[i]))
    && (forall surface :: PREFIX + surface in h.storage ==>
          Own(storage, es, surface, h.storage[PREFIX + surface])
          && (h.storage[PREFIX + surface] == "" ==> PREFIX + surface in storage && storage[PREFIX + surface] == ""))
  }

  lemma OwnLater(storage: map<string, string>, es: seq<Event>, e: Event, surface: string, text: string)
    requires Own(storage, es, surface, text)
    ensures Own(storage, es + [e], surface, text)
  {
    if i :| 0 <= i < |es| && es[i] == SetText(surface, text) { assert (es + [e])[i] == es[i]; }
  }

  lemma WriteOwns(storage: map<string, string>, es: seq<Event>, h: Hook, writable: bool)
    requires OwnOrEmpty(storage, es, h.draft)
    requires forall surface :: PREFIX + surface in h.storage ==>
               Own(storage, es, surface, h.storage[PREFIX + surface])
               && (h.storage[PREFIX + surface] == "" ==> PREFIX + surface in storage && storage[PREFIX + surface] == "")
    ensures var now := Write(h.storage, h.draft, writable);
            forall surface :: PREFIX + surface in now ==>
              Own(storage, es, surface, now[PREFIX + surface])
              && (now[PREFIX + surface] == "" ==> PREFIX + surface in storage && storage[PREFIX + surface] == "")
  {
    var now := Write(h.storage, h.draft, writable);
    forall surface | PREFIX + surface in now
      ensures Own(storage, es, surface, now[PREFIX + surface])
      ensures now[PREFIX + surface] == "" ==> PREFIX + surface in storage && storage[PREFIX + surface] == ""
    {
      if PREFIX + surface == PREFIX + h.draft.surface { KeysDiffer(surface, h.draft.surface); }
    }
  }

  lemma StepOwns(storage: map<string, string>, es: seq<Event>, e: Event)
    requires AllOwn(storage, es)
    ensures AllOwn(storage, es + [e])
  {
    var all := es + [e];
    assert all[..|es|] == es;
    var h := After(Fresh(storage), es);
    forall surface, text | Own(storage, es, surface, text) ensures Own(storage, all, surface, text) {
      OwnLater(storage, es, e, surface, text);
    }
    if e.SetText? { assert all[|es|] == SetText(e.surface, e.text); }
    if h.mounted {
      WriteOwns(storage, all, h, true);
      WriteOwns(storage, all, h, false);
    }
  }

  lemma {:induction false} RunOwns(storage: map<string, string>, es: seq<Event>)
    ensures AllOwn(storage, es)
  {
    if es == [] {
    } else {
      RunOwns(storage, es[..|es| - 1]);
      StepOwns(storage, es[..|es| - 1], es[|es| - 1]);
      assert es[..|es| - 1] + [es[|es| - 1]] == es;
    }
  }

  /**
   * A text can never land under another surface's key. For every run of mounts, reloads, renders under
   * changing surfaces, effects, and calls through current or stale callbacks, over a storage
   * that may refuse any access: what is stored for a surface was stored for it before or was
   * set for that very surface, and no empty text is ever stored.
   */
  lemma {:induction false} TextStaysUnderItsOwnKey(storage: map<string, string>, es: seq<Event>, surface: string)
    requires PREFIX + surface in After(Fresh(storage), es).storage
    ensures var text := After(Fresh(storage), es).storage[PREFIX + surface];
            || (PREFIX + surface in storage && storage[PREFIX + surface] == text)
            || (text != "" && exists i :: 0 <= i < |es| && es[i] == SetText(surface, text))
  {
    RunOwns(storage, es);
  }

  /** Keys that are not drafts are never touched. */
  lemma {:induction false} OtherKeysAreUntouched(h: Hook, es: seq<Event>, key: string)
    requires !(PREFIX <= key)
    ensures key in After(h, es).storage <==> key in h.storage
    ensures key in h.storage ==> After(h, es).storage[key] == h.storage[key]
  {
    if es == [] {
    } else {
      OtherKeysAreUntouched(h, es[..|es| - 1], key);
    }
  }

  // ------------------------------------------------- the hook is a plain map of texts

  /** The specification: a map from surfaces to texts, and the last text set since the last render. */
  datatype Plain = Plain(texts: map<string, string>, open: bool, pending: Option<Draft>, shown: string)

  function TextOf(p: Plain, surface: string): string {
    if surface in p.texts then p.texts[surface] else ""
  }

  /** A text is committed when the surface it was set for is the one rendered next. */
  function Committed(p: Plain, surface: string): Plain {
    if p.pending.Some? && p.pending.value.surface == surface
    then p.(texts := p.texts[surface := p.pending.value.text], pending := None)
    else p.(pending := None)
  }

  function PlainStep(p: Plain, e: Event): Plain {
    match e
    case Mount(surface, _) => if p.open then p else p.(open := true, pending := None, shown := TextOf(p, surface))
    case SetText(surface, text) => if p.open then p.(pending := Some(Draft(surface, text))) else p
    case Render(surface, _, _) =>
      if p.open then var q := Committed(p, surface); q.(shown := TextOf(q, surface)) else p
    case Effect(_) => p
    case Unmount(_) => p.(open := false, pending := None)
    case Reload => p.(open := false, pending := None)
  }

  function PlainAfter(p: Plain, es: seq<Event>): Plain {
    if es == [] then p else PlainStep(PlainAfter(p, es[..|es| - 1]), es[|es| - 1])
  }

  /** The browser lets every access through. */
  predicate Works(e: Event) {
    match e
    case Mount(_, readable) => readable
    case SetText(_, _) => true
    case Render(_, readable, writable) => readable && writable
    case Effect(writable) => writable
    case Unmount(writable) => writable
    case Reload => true
  }

  /** The effect has nothing left to write. */
  predicate Written(h: Hook) {
    h.mounted ==> !h.dirty
  }

  /** The browser lets every access through, and the page is reloaded only when the effect has run. */
  predicate WorkingRun(h: Hook, es: seq<Event>) {
    forall i :: 0 <= i < |es| ==> Works(es[i]) && (es[i].Reload? ==> Written(After(h, es[..i])))
  }

  lemma {:induction false} WorkingFront(h: Hook, es: seq<Event>)
    requires es != [] && WorkingRun(h, es)
    ensures WorkingRun(h, es[..|es| - 1])
  {
    var front := es[..|es| - 1];
    forall i | 0 <= i < |front| ensures Works(front[i]) && (front[i].Reload? ==> Written(After(h, front[..i]))) {
      assert front[..i] == es[..i];
    }
  }

  /** What the hook would show for the surface: the pair in its state, or else what is stored. */
  function Remembered(h: Hook, surface: string): string {
    if h.mounted && h.draft.surface == surface then h.draft.text else Read(h.storage, surface, true)
  }

  predicate Synced(h: Hook) {
    h.mounted && !h.dirty ==> Read(h.storage, h.draft.surface, true) == h.draft.text
  }

  ghost predicate Refines(h: Hook, p: Plain) {
    && Synced(h) && h.mounted == p.open
    && (h.mounted ==> h.shown == p.shown && p.pending == if h.queue == [] then None else Some(Pending(h)))
    && (!h.mounted ==> p.pending == None)
    && forall surface :: Remembered(h, surface) == TextOf(p, surface)
  }

  lemma FlushKeepsTexts(h: Hook)
    requires Synced(h)
    ensures var f := Flush(h, true);
            && Synced(f) && f.mounted == h.mounted && f.queue == h.queue && f.shown == h.shown && f.draft == h.draft
            && (f.mounted ==> !f.dirty)
            && (forall surface :: Remembered(f, surface) == Remembered(h, surface))
            && (f.mounted ==> forall surface :: Read(f.storage, surface, true) == Remembered(h, surface))
  {
    var f := Flush(h, true);
    forall surface
      ensures Remembered(f, surface) == Remembered(h, surface)
      ensures f.mounted ==> Read(f.storage, surface, true) == Remembered(h, surface)
    {
      if PREFIX + surface == PREFIX + h.draft.surface { KeysDiffer(surface, h.draft.surface); }
    }
  }

  /**
   * One event changes what is remembered for a surface only by committing the last text set, for
   * the surface rendered.
   */
  lemma StepRemembers(h: Hook, e: Event, surface: string)
    requires Synced(h) && Works(e) && (e.Reload? ==> Written(h))
    ensures Synced(Apply(h, e))
    ensures Remembered(Apply(h, e), surface) ==
            if e.Render? && h.mounted && h.queue != [] && Pending(h).surface == surface && e.surface == surface
            then Pending(h).text else Remembered(h, surface)
  {
    FlushKeepsTexts(h);
  }

  lemma StepRefines(h: Hook, p: Plain, e: Event)
    requires Refines(h, p) && Works(e) && (e.Reload? ==> Written(h))
    ensures Refines(Apply(h, e), PlainStep(p, e))
  {
    var t, q := Apply(h, e), PlainStep(p, e);
    forall surface ensures Remembered(t, surface) == TextOf(q, surface) {
      StepRemembers(h, e, surface);
      assert Remembered(h, surface) == TextOf(p, surface);
    }
    FlushKeepsTexts(h);
    if e.Render? && h.mounted { assert t.shown == Remembered(t, e.surface); }
    if e.Mount? && !h.mounted { assert t.shown == Remembered(t, e.surface); }
  }

  /**
   * Over a storage that works the hook is a plain map from surfaces to texts: for every run,
   * screens left and pages reloaded included, both show the same text, and the hook remembers
   * for every surface exactly what the map holds.
   */
  lemma {:induction false} HookRefinesPlainMap(storage: map<string, string>, texts: map<string, string>, es: seq<Event>)
    requires forall surface :: Read(storage, surface, true) == if surface in texts then texts[surface] else ""
    requires WorkingRun(Fresh(storage), es)
    ensures Refines(After(Fresh(storage), es), PlainAfter(Plain(texts, false, None, ""), es))
  {
    if es == [] {
    } else {
      var front := es[..|es| - 1];
      WorkingFront(Fresh(storage), es);
      HookRefinesPlainMap(storage, texts, front);
      StepRefines(After(Fresh(storage), front), PlainAfter(Plain(texts, false, None, ""), front), es[|es| - 1]);
    }
  }

  // ------------------------------------------------- what survives and what is lost

  predicate NotSetFor(es: seq<Event>, surface: string) {
    forall i :: 0 <= i < |es| ==> es[i].SetText? ==> es[i].surface != surface
  }

  predicate NothingPendingFor(h: Hook, surface: string) {
    forall i :: 0 <= i < |h.queue| ==> h.queue[i].surface != surface
  }

  /** The next render of the surface: of the composer on screen, or the first one after it was left. */
  function Return(h: Hook, surface: string): Event {
    if h.mounted then Render(surface, true, true) else Mount(surface, true)
  }

  lemma StepKeepsText(h: Hook, e: Event, surface: string)
    requires Synced(h) && NothingPendingFor(h, surface) && Works(e) && (e.Reload? ==> Written(h))
    requires e.SetText? ==> e.surface != surface
    ensures var t := Apply(h, e);
            && Synced(t) && NothingPendingFor(t, surface) && Remembered(t, surface) == Remembered(h, surface)
            && (e == Return(h, surface) ==> t.shown == Remembered(h, surface))
  {
    FlushKeepsTexts(h);
  }

  lemma {:induction false} RunKeepsText(h: Hook, es: seq<Event>, surface: string)
    requires Synced(h) && NothingPendingFor(h, surface) && NotSetFor(es, surface) && WorkingRun(h, es)
    ensures var t := After(h, es);
            Synced(t) && NothingPendingFor(t, surface) && Remembered(t, surface) == Remembered(h, surface)
  {
    if es == [] {
    } else {
      var front := es[..|es| - 1];
      WorkingFront(h, es);
      assert NotSetFor(front, surface) by {
        forall i | 0 <= i < |front| && front[i].SetText? ensures front[i].surface != surface {
          assert front[i] == es[i];
        }
      }
      RunKeepsText(h, front, surface);
      StepKeepsText(After(h, front), es[|es| - 1], surface);
    }
  }

  lemma Then(h: Hook, es: seq<Event>, e: Event)
    ensures After(h, es + [e]) == Apply(After(h, es), e)
  {
    assert (es + [e])[..|es|] == es;
  }

  /**
   * A committed draft survives: whatever surfaces are opened, typed on, left and reopened in
   * between, and however often the screen is left and the page reloaded after the effect has run,
   * as long as nothing is set for this surface: its next render, be it the first one after the
   * return, shows the text.
   */
  lemma {:induction false} CommittedDraftSurvives(h: Hook, es: seq<Event>, surface: string)
    requires h.mounted && Synced(h) && h.queue == [] && h.draft.surface == surface
    requires NotSetFor(es, surface) && WorkingRun(h, es)
    ensures After(h, es + [Return(After(h, es), surface)]).shown == h.draft.text
  {
    RunKeepsText(h, es, surface);
    StepKeepsText(After(h, es), Return(After(h, es), surface), surface);
    Then(h, es, Return(After(h, es), surface));
  }

  /** In particular it survives a reload at any moment once the effect has run. */
  lemma {:induction false} CommittedDraftSurvivesReload(h: Hook, es: seq<Event>, surface: string)
    requires h.mounted && Synced(h) && h.queue == [] && h.draft.surface == surface
    requires NotSetFor(es, surface) && WorkingRun(h, es)
    ensures After(h, es + [Effect(true)] + [Reload] + [Mount(surface, true)]).shown == h.draft.text
  {
    var t := After(h, es);
    var written := Apply(t, Effect(true));
    RunKeepsText(h, es, surface);
    StepKeepsText(t, Effect(true), surface);
    StepKeepsText(written, Reload, surface);
    StepKeepsText(Apply(written, Reload), Mount(surface, true), surface);
    Then(h, es, Effect(true));
    Then(h, es + [Effect(true)], Reload);
    Then(h, es + [Effect(true)] + [Reload], Mount(surface, true));
  }

  /**
   * A text set just before a render is remembered exactly when the surface rendered is its own, or
   * it was already there.
   */
  lemma TextIsKeptIffItsSurfaceIsRendered(h: Hook, typed: Draft, surface: string)
    requires h.mounted && Synced(h)
    ensures var t := After(h, [SetText(typed.surface, typed.text), Render(surface, true, true)]);
            && (Remembered(t, typed.surface) == typed.text <==>
                  typed.surface == surface || Remembered(h, typed.surface) == typed.text)
            && (typed.surface != surface ==> t.shown == Remembered(h, surface))
  {
    var es := [SetText(typed.surface, typed.text), Render(surface, true, true)];
    var set1 := es[..1];
    assert set1[..0] == [];
    assert After(h, set1) == Apply(h, es[0]);
    var a := Apply(h, es[0]);
    assert After(h, es) == Apply(a, es[1]);
    StepRemembers(a, es[1], typed.surface);
    FlushKeepsTexts(a);
  }

  predicate StaysOn(e: Event, surface: string) {
    e.Effect? || (e.Render? && e.surface == surface)
  }

  /**
   * A storage that refuses everything costs only survival: typing on one surface shows what was
   * typed, whatever the storage does.
   */
  lemma {:induction false} TypingNeedsNoStorage(h: Hook, typed: Draft, es: seq<Event>)
    requires h.mounted && es != [] && es[0].Render?
    requires forall i :: 0 <= i < |es| ==> StaysOn(es[i], typed.surface)
    ensures var t := After(Apply(h, SetText(typed.surface, typed.text)), es);
            t.mounted && t.draft == typed && t.queue == [] && t.shown == typed.text
  {
    var front, e := es[..|es| - 1], es[|es| - 1];
    assert StaysOn(e, typed.surface);
    if front == [] {
    } else {
      forall i | 0 <= i < |front| ensures StaysOn(front[i], typed.surface) { assert front[i] == es[i]; }
      TypingNeedsNoStorage(h, typed, front);
    }
  }

  // ------------------------------------------------- the hook as it runs

  class Composer {
    var storage: map<string, string>
    var mounted: bool
    var draft: Draft
    var queue: seq<Draft>
    var dirty: bool
    var shown: string

    ghost function View(): Hook
      reads this
    {
      Hook(storage, mounted, draft, queue, dirty, shown)
    }

    constructor (kept: map<string, string>)
      ensures View() == Fresh(kept)
    {
      storage, mounted, draft, queue, dirty, shown := kept, false, Draft("", ""), [], false, "";
    }

    /** The effect body: an empty text erases its key, a refused access is ignored. */
    method WriteDraft(writable: bool)
      modifies this
      ensures View() == old(View()).(storage := Write(old(storage), old(draft), writable), dirty := false)
      ensures !writable ==> storage == old(storage)
      ensures writable && draft.text == "" ==> storage == old(storage) - {PREFIX + draft.surface}
      ensures writable && draft.text != "" ==> storage == old(storage)[PREFIX + draft.surface := draft.text]
    {
      if writable {
        var key := PREFIX + draft.surface;
        storage := if draft.text == "" then storage - {key} else storage[key := draft.text];
      }
      dirty := false;
    }

    method RunEffect(writable: bool)
      modifies this
      ensures View() == Apply(old(View()), Effect(writable))
    {
      if mounted && dirty { WriteDraft(writable); }
    }

    /** The callback made for `surface`; it may be called long after another surface is on screen. */
    method SetTextFor(surface: string, next: string)
      modifies this
      ensures View() == Apply(old(View()), SetText(surface, next))
    {
      if mounted { queue := queue + [Draft(surface, next)]; }
    }

    /** The first call of the hook: the initial state is read from the storage. */
    method MountOn(surface: string, readable: bool) returns (text: string)
      requires !mounted
      modifies this
      ensures View() == Apply(old(View()), Mount(surface, readable)) && text == shown
    {
      text := Read(storage, surface, readable);
      mounted, draft, queue, dirty, shown := true, Draft(surface, text), [], true, text;
    }

    /** One call of the hook: the queued updates, then the re-read if the surface is another one. */
    method UseComposerDraft(surface: string, readable: bool, writable: bool) returns (text: string)
      requires mounted
      modifies this
      ensures View() == Apply(old(View()), Render(surface, readable, writable)) && text == shown
    {
      RunEffect(writable);
      if queue != [] {
        draft, dirty := queue[|queue| - 1], true;
        queue := [];
      }
      if draft.surface != surface {
        draft, dirty := Draft(surface, Read(storage, surface, readable)), true;
      }
      text := if draft.surface == surface then draft.text else "";
      shown := text;
    }
  }
}
