/** spa/src/shell/chat-stream.ts: the live turn folded out of the frames of the channel. */
module TurnStream {
  import opened Text
  import opened Bells

  const STAGE_WORDS: map<string, string> := map[
    "accepted" := "получено",
    "context" := "читаю контекст…",
    "writing" := "пишу ответ…",
    "done" := "ответ готов"]

  datatype Stream = Stream(turnId: string, seqNo: real, stages: seq<string>)

  function EmptyStream(turnId: string): Stream {
    Stream(turnId, 0.0, [])
  }

  function SeqOf(frame: Frame): real {
    if frame.seqNo.Some? then frame.seqNo.value else 0.0
  }

  function FoldStream(prev: Stream, frame: Frame): Stream {
    if frame.event != "chat.stage" then prev
    else if !Truthy(frame.turnId) || frame.turnId.value != prev.turnId then prev
    else if SeqOf(frame) <= prev.seqNo then prev
    else if !(Truthy(frame.stage) && frame.stage.value in STAGE_WORDS) then prev
    else Stream(prev.turnId, SeqOf(frame), prev.stages + [STAGE_WORDS[frame.stage.value]])
  }

  function FoldAll(prev: Stream, frames: seq<Frame>): Stream {
    if frames == [] then prev else FoldStream(FoldAll(prev, frames[..|frames| - 1]), frames[|frames| - 1])
  }

  /** The words of the four stages; no other stage has any. */
  function SaidOf(stage: string): Option<string> {
    if stage == "accepted" then Some("получено")
    else if stage == "context" then Some("читаю контекст…")
    else if stage == "writing" then Some("пишу ответ…")
    else if stage == "done" then Some("ответ готов")
    else None
  }

  /**
   * One frame adds its stage's words and its number exactly when it is a stage of this turn, names
   * one of the four stages and carries a number above the last one; otherwise it changes nothing.
   */
  lemma FrameIsTakenIff(prev: Stream, frame: Frame)
    requires prev.seqNo >= 0.0
    ensures var taken := frame.event == "chat.stage" && frame.turnId == Some(prev.turnId) && prev.turnId != ""
                         && frame.seqNo.Some? && frame.seqNo.value > prev.seqNo
                         && frame.stage.Some? && SaidOf(frame.stage.value).Some?;
            && (taken ==> FoldStream(prev, frame) ==
                          Stream(prev.turnId, frame.seqNo.value, prev.stages + [SaidOf(frame.stage.value).value]))
            && (!taken ==> FoldStream(prev, frame) == prev)
  {
  }

  // ------------------------------------------------- records: what the fold should show

  /** A frame of this turn naming a stage the window can say. */
  predicate Known(turnId: string, frame: Frame) {
    && frame.event == "chat.stage"
    && Truthy(frame.turnId) && frame.turnId.value == turnId
    && Truthy(frame.stage) && frame.stage.value in STAGE_WORDS
  }

  /** Numbered above zero and above every earlier known frame: a strict left-to-right maximum. */
  predicate Record(turnId: string, frames: seq<Frame>, i: nat) {
    && i < |frames| && Known(turnId, frames[i]) && SeqOf(frames[i]) > 0.0
    && forall j :: 0 <= j < i && Known(turnId, frames[j]) ==> SeqOf(frames[j]) < SeqOf(frames[i])
  }

  /** The positions of the records among the first `n` frames. */
  function Records(turnId: string, frames: seq<Frame>, n: nat): (r: seq<nat>)
    requires n <= |frames|
    ensures forall i :: 0 <= i < |r| ==> r[i] < n && Record(turnId, frames, r[i])
  {
    if n == 0 then []
    else if Record(turnId, frames, n - 1) then Records(turnId, frames, n - 1) + [n - 1]
    else Records(turnId, frames, n - 1)
  }

  function WordAt(turnId: string, frames: seq<Frame>, i: nat): string
    requires Record(turnId, frames, i)
  {
    STAGE_WORDS[frames[i].stage.value]
  }

  function Words(turnId: string, frames: seq<Frame>, at: seq<nat>): seq<string>
    requires forall i :: 0 <= i < |at| ==> Record(turnId, frames, at[i])
  {
    seq(|at|, i requires 0 <= i < |at| => WordAt(turnId, frames, at[i]))
  }

  /** `top` is the largest number among the known frames, or zero. */
  ghost predicate Highest(turnId: string, frames: seq<Frame>, top: real) {
    && (forall j :: 0 <= j < |frames| && Known(turnId, frames[j]) ==> SeqOf(frames[j]) <= top)
    && (top == 0.0 || exists j :: 0 <= j < |frames| && Known(turnId, frames[j]) && SeqOf(frames[j]) == top)
    && top >= 0.0
  }

  /** `Records` lists every record, once, in order. */
  lemma {:induction false} RecordsAreAll(turnId: string, frames: seq<Frame>, n: nat)
    requires n <= |frames|
    ensures var r := Records(turnId, frames, n);
            && (forall i: nat :: i < n && Record(turnId, frames, i) ==> i in r)
            && (forall i, j :: 0 <= i < j < |r| ==> r[i] < r[j])
  {
    if n > 0 { RecordsAreAll(turnId, frames, n - 1); }
  }

  lemma RecordInPrefix(turnId: string, frames: seq<Frame>, m: nat, i: nat)
    requires m <= |frames| && i < m
    ensures Record(turnId, frames[..m], i) == Record(turnId, frames, i)
  {
    assert forall j :: 0 <= j < m ==> frames[..m][j] == frames[j];
  }

  lemma {:induction false} RecordsOfPrefix(turnId: string, frames: seq<Frame>, m: nat, n: nat)
    requires n <= m <= |frames|
    ensures Records(turnId, frames[..m], n) == Records(turnId, frames, n)
  {
    if n > 0 {
      RecordInPrefix(turnId, frames, m, n - 1);
      RecordsOfPrefix(turnId, frames, m, n - 1);
    }
  }

  lemma WordsOfPrefix(turnId: string, frames: seq<Frame>, n: nat)
    requires n <= |frames|
    ensures Words(turnId, frames[..n], Records(turnId, frames[..n], n)) ==
            Words(turnId, frames, Records(turnId, frames, n))
  {
    RecordsOfPrefix(turnId, frames, n, n);
    var at := Records(turnId, frames, n);
    assert forall i :: 0 <= i < |at| ==> WordAt(turnId, frames[..n], at[i]) == WordAt(turnId, frames, at[i]);
  }

  lemma WordsOneMore(turnId: string, frames: seq<Frame>, at: seq<nat>, n: nat)
    requires (forall i :: 0 <= i < |at| ==> Record(turnId, frames, at[i])) && Record(turnId, frames, n)
    ensures Words(turnId, frames, at + [n]) == Words(turnId, frames, at) + [WordAt(turnId, frames, n)]
  {
  }

  lemma LastIsRecord(turnId: string, frames: seq<Frame>, top: real)
    requires frames != [] && Highest(turnId, frames[..|frames| - 1], top)
    ensures Record(turnId, frames, |frames| - 1) <==>
            Known(turnId, frames[|frames| - 1]) && SeqOf(frames[|frames| - 1]) > top
  {
    var front := frames[..|frames| - 1];
    assert forall j :: 0 <= j < |front| ==> front[j] == frames[j];
    if top != 0.0 {
      var j :| 0 <= j < |front| && Known(turnId, front[j]) && SeqOf(front[j]) == top;
      assert frames[j] == front[j];
    }
  }

  lemma HighestGrows(turnId: string, frames: seq<Frame>, top: real)
    requires frames != [] && Highest(turnId, frames[..|frames| - 1], top)
    ensures var last := frames[|frames| - 1];
            Highest(turnId, frames, if Known(turnId, last) && SeqOf(last) > top then SeqOf(last) else top)
  {
    var front := frames[..|frames| - 1];
    assert forall j :: 0 <= j < |front| ==> front[j] == frames[j];
    if top != 0.0 {
      var j :| 0 <= j < |front| && Known(turnId, front[j]) && SeqOf(front[j]) == top;
      assert Known(turnId, frames[j]) && SeqOf(frames[j]) == top;
    }
  }

  /**
   * Whatever the delivery, with frames repeated, late, of other turns or of other events, the
   * stages shown are exactly the words of the records in order, and the number kept is the
   * largest of the known frames.
   */
  lemma {:induction false} StagesAreTheRecords(turnId: string, frames: seq<Frame>)
    ensures var s := FoldAll(EmptyStream(turnId), frames);
            && s.turnId == turnId
            && Highest(turnId, frames, s.seqNo)
            && s.stages == Words(turnId, frames, Records(turnId, frames, |frames|))
  {
    if frames == [] {
    } else {
      var n := |frames| - 1;
      var front := frames[..n];
      StagesAreTheRecords(turnId, front);
      var s := FoldAll(EmptyStream(turnId), front);
      RecordsOfPrefix(turnId, frames, n, n);
      var at := Records(turnId, frames, n);
      WordsOfPrefix(turnId, frames, n);
      LastIsRecord(turnId, frames, s.seqNo);
      HighestGrows(turnId, frames, s.seqNo);
      if Record(turnId, frames, n) { WordsOneMore(turnId, frames, at, n); }
    }
  }

  predicate NumberedUpwards(frames: seq<Frame>) {
    forall i, j :: 0 <= i < j < |frames| ==> SeqOf(frames[i]) < SeqOf(frames[j])
  }

  /** Where in `written` the frames of `picked` stand. */
  predicate Places(at: seq<nat>, picked: seq<Frame>, written: seq<Frame>) {
    && |at| == |picked|
    && (forall i :: 0 <= i < |at| ==> at[i] < |written| && written[at[i]] == picked[i])
    && (forall i, j :: 0 <= i < j < |at| ==> at[i] < at[j])
  }

  lemma {:induction false} UpwardIsInPlace(picked: seq<Frame>, written: seq<Frame>) returns (at: seq<nat>)
    requires NumberedUpwards(written) && NumberedUpwards(picked)
    requires forall i :: 0 <= i < |picked| ==> picked[i] in written
    ensures Places(at, picked, written)
  {
    at := [];
    if picked == [] {
    } else {
      var n := |picked| - 1;
      var front := UpwardIsInPlace(picked[..n], written);
      var w :| 0 <= w < |written| && written[w] == picked[n];
      forall i | 0 <= i < n ensures front[i] < w {
        assert picked[..n][i] == picked[i];
        assert SeqOf(written[front[i]]) < SeqOf(written[w]);
      }
      at := front + [w];
    }
  }

  function Picked(turnId: string, frames: seq<Frame>): (r: seq<Frame>)
    ensures |r| == |Records(turnId, frames, |frames|)|
    ensures forall i :: 0 <= i < |r| ==> r[i] == frames[Records(turnId, frames, |frames|)[i]]
  {
    var at := Records(turnId, frames, |frames|);
    seq(|at|, i requires 0 <= i < |at| => frames[at[i]])
  }

  lemma RecordsGoUpwards(turnId: string, frames: seq<Frame>)
    ensures NumberedUpwards(Picked(turnId, frames))
  {
    var r := Records(turnId, frames, |frames|);
    RecordsAreAll(turnId, frames, |frames|);
    forall i, j | 0 <= i < j < |r| ensures SeqOf(frames[r[i]]) < SeqOf(frames[r[j]]) {
      assert Record(turnId, frames, r[i]) && Record(turnId, frames, r[j]) && r[i] < r[j];
    }
  }

  /**
   * The bubble tells the turn in the order it was written: when the daemon numbers its frames
   * upwards and every delivered frame is one of them, the stages shown are words of written
   * frames at strictly increasing places.
   */
  lemma ShownInWrittenOrder(turnId: string, written: seq<Frame>, frames: seq<Frame>) returns (at: seq<nat>)
    requires NumberedUpwards(written)
    requires forall i :: 0 <= i < |frames| ==> frames[i] in written
    ensures var s := FoldAll(EmptyStream(turnId), frames);
            && |at| == |s.stages|
            && (forall i :: 0 <= i < |at| ==>
                  && at[i] < |written| && Known(turnId, written[at[i]])
                  && s.stages[i] == STAGE_WORDS[written[at[i]].stage.value])
            && (forall i, j :: 0 <= i < j < |at| ==> at[i] < at[j])
  {
    StagesAreTheRecords(turnId, frames);
    RecordsGoUpwards(turnId, frames);
    at := UpwardIsInPlace(Picked(turnId, frames), written);
    var r := Records(turnId, frames, |frames|);
    forall i | 0 <= i < |at|
      ensures Known(turnId, written[at[i]])
      ensures FoldAll(EmptyStream(turnId), frames).stages[i] == STAGE_WORDS[written[at[i]].stage.value]
    {
      assert Record(turnId, frames, r[i]) && written[at[i]] == frames[r[i]];
    }
  }

  // ------------------------------------------------- late frames

  /** A frame of this turn that the fold may show at all. */
  predicate Counted(turnId: string, frame: Frame) {
    Known(turnId, frame) && SeqOf(frame) > 0.0
  }

  /** Every number delivered is the number of a record. */
  ghost predicate NothingLost(turnId: string, frames: seq<Frame>) {
    forall i :: 0 <= i < |frames| && Counted(turnId, frames[i]) ==>
      exists j: nat :: Record(turnId, frames, j) && SeqOf(frames[j]) == SeqOf(frames[i])
  }

  /** The frame counts, and no earlier known frame has its number. */
  predicate FirstCounted(turnId: string, frames: seq<Frame>, i: nat) {
    && i < |frames| && Counted(turnId, frames[i])
    && forall j :: 0 <= j < i && Known(turnId, frames[j]) ==> SeqOf(frames[j]) != SeqOf(frames[i])
  }

  /** Replays aside, each frame arrives numbered above all that arrived before it. */
  predicate ArrivesInOrder(turnId: string, frames: seq<Frame>) {
    forall i, j :: 0 <= j < i < |frames| && Known(turnId, frames[j]) && FirstCounted(turnId, frames, i) ==>
      SeqOf(frames[j]) < SeqOf(frames[i])
  }

  lemma {:induction false} FirstArrival(turnId: string, frames: seq<Frame>, i: nat) returns (j: nat)
    requires i < |frames| && Counted(turnId, frames[i])
    ensures j <= i && FirstCounted(turnId, frames, j) && SeqOf(frames[j]) == SeqOf(frames[i])
  {
    j := i;
    if k: nat :| k < i && Known(turnId, frames[k]) && SeqOf(frames[k]) == SeqOf(frames[i]) {
      j := FirstArrival(turnId, frames, k);
    }
  }

  /** Nothing is lost exactly when, replays aside, the frames arrive in the order of their numbers. */
  lemma {:induction false} NothingIsLostIffInOrder(turnId: string, frames: seq<Frame>)
    ensures NothingLost(turnId, frames) <==> ArrivesInOrder(turnId, frames)
  {
    if ArrivesInOrder(turnId, frames) {
      forall i | 0 <= i < |frames| && Counted(turnId, frames[i])
        ensures exists j: nat :: Record(turnId, frames, j) && SeqOf(frames[j]) == SeqOf(frames[i])
      {
        var j := FirstArrival(turnId, frames, i);
        assert Record(turnId, frames, j);
      }
    }
    if NothingLost(turnId, frames) {
      forall i, j | 0 <= j < i < |frames| && Known(turnId, frames[j]) && FirstCounted(turnId, frames, i)
        ensures SeqOf(frames[j]) < SeqOf(frames[i])
      {
        var k: nat :| Record(turnId, frames, k) && SeqOf(frames[k]) == SeqOf(frames[i]);
        assert k == i;
      }
    }
  }

  predicate Increasing(at: seq<nat>, n: nat) {
    (forall i :: 0 <= i < |at| ==> at[i] < n) && forall i, j :: 0 <= i < j < |at| ==> at[i] < at[j]
  }

  /** Strictly increasing places leave no room for more of them, and none to choose when all are taken. */
  lemma {:induction false} PlacesFit(at: seq<nat>, n: nat)
    requires Increasing(at, n)
    ensures |at| <= n
    ensures |at| == n ==> forall i :: 0 <= i < n ==> at[i] == i
  {
    if at == [] {
    } else {
      var last := |at| - 1;
      PlacesFit(at[..last], at[last]);
      assert forall i :: 0 <= i < last ==> at[..last][i] == at[i];
    }
  }

  /** A stream numbered upwards is all records. */
  lemma {:induction false} AllAreRecords(turnId: string, written: seq<Frame>, n: nat)
    requires n <= |written| && NumberedUpwards(written)
    requires forall w :: 0 <= w < |written| ==> Counted(turnId, written[w])
    ensures |Records(turnId, written, n)| == n
  {
    if n > 0 {
      AllAreRecords(turnId, written, n - 1);
      assert Record(turnId, written, n - 1);
    }
  }

  /** Frames that stand for `written`: each counted one is written, each written one is delivered. */
  predicate Delivers(turnId: string, written: seq<Frame>, frames: seq<Frame>) {
    && NumberedUpwards(written)
    && (forall w :: 0 <= w < |written| ==> Counted(turnId, written[w]) && written[w] in frames)
    && (forall i :: 0 <= i < |frames| && Counted(turnId, frames[i]) ==> frames[i] in written)
  }

  lemma PickedFits(turnId: string, written: seq<Frame>, frames: seq<Frame>)
    requires Delivers(turnId, written, frames)
    ensures |Picked(turnId, frames)| <= |written|
    ensures |Picked(turnId, frames)| == |written| ==> Picked(turnId, frames) == written
  {
    var picked := Picked(turnId, frames);
    RecordsGoUpwards(turnId, frames);
    forall i | 0 <= i < |picked| ensures picked[i] in written {
      assert Record(turnId, frames, Records(turnId, frames, |frames|)[i]);
    }
    var at := UpwardIsInPlace(picked, written);
    PlacesFit(at, |written|);
  }

  /** Written frames are told apart by their numbers. */
  lemma SameNumberSameFrame(written: seq<Frame>, a: Frame, b: Frame)
    requires NumberedUpwards(written) && a in written && b in written && SeqOf(a) == SeqOf(b)
    ensures a == b
  {
    var i :| 0 <= i < |written| && written[i] == a;
    var j :| 0 <= j < |written| && written[j] == b;
    assert i == j;
  }

  lemma RecordIsPicked(turnId: string, frames: seq<Frame>, j: nat)
    requires Record(turnId, frames, j)
    ensures frames[j] in Picked(turnId, frames)
  {
    var r := Records(turnId, frames, |frames|);
    RecordsAreAll(turnId, frames, |frames|);
    var k :| 0 <= k < |r| && r[k] == j;
    assert Picked(turnId, frames)[k] == frames[j];
  }

  lemma WrittenIsPicked(turnId: string, written: seq<Frame>, frames: seq<Frame>, w: nat)
    requires Delivers(turnId, written, frames) && NothingLost(turnId, frames) && w < |written|
    ensures written[w] in Picked(turnId, frames)
  {
    assert written[w] in frames;
    var i :| 0 <= i < |frames| && frames[i] == written[w];
    var j: nat :| Record(turnId, frames, j) && SeqOf(frames[j]) == SeqOf(frames[i]);
    SameNumberSameFrame(written, frames[j], written[w]);
    RecordIsPicked(turnId, frames, j);
  }

  lemma PickedIsAllIffNothingIsLost(turnId: string, written: seq<Frame>, frames: seq<Frame>)
    requires Delivers(turnId, written, frames)
    ensures |Picked(turnId, frames)| == |written| <==> NothingLost(turnId, frames)
  {
    var picked, r := Picked(turnId, frames), Records(turnId, frames, |frames|);
    PickedFits(turnId, written, frames);
    RecordsAreAll(turnId, frames, |frames|);
    if |picked| == |written| {
      forall i | 0 <= i < |frames| && Counted(turnId, frames[i])
        ensures exists j: nat :: Record(turnId, frames, j) && SeqOf(frames[j]) == SeqOf(frames[i])
      {
        var w :| 0 <= w < |written| && written[w] == frames[i];
        assert Record(turnId, frames, r[w]) && frames[r[w]] == picked[w];
      }
    }
    if NothingLost(turnId, frames) {
      RecordsGoUpwards(turnId, frames);
      forall w | 0 <= w < |written| ensures written[w] in picked {
        WrittenIsPicked(turnId, written, frames, w);
      }
      var at := UpwardIsInPlace(written, picked);
      PlacesFit(at, |picked|);
    }
  }

  lemma SamePicked(turnId: string, written: seq<Frame>, frames: seq<Frame>)
    requires Picked(turnId, frames) == written && |Records(turnId, written, |written|)| == |written|
    ensures Words(turnId, frames, Records(turnId, frames, |frames|)) ==
            Words(turnId, written, Records(turnId, written, |written|))
  {
    var r, all := Records(turnId, frames, |frames|), Records(turnId, written, |written|);
    RecordsAreAll(turnId, written, |written|);
    PlacesFit(all, |written|);
    forall i | 0 <= i < |r| ensures WordAt(turnId, frames, r[i]) == WordAt(turnId, written, all[i]) {
      assert Picked(turnId, frames)[i] == frames[r[i]];
    }
  }

  /**
   * What the number is for, exactly: the stages shown are those of the turn as it was written if
   * and only if, replays aside, the frames arrive in order. A frame that arrives late is not put
   * in its place: it is dropped.
   */
  lemma {:induction false} LateFramesAreShownIffInOrder(turnId: string, written: seq<Frame>, frames: seq<Frame>)
    requires Delivers(turnId, written, frames)
    ensures FoldAll(EmptyStream(turnId), frames).stages == FoldAll(EmptyStream(turnId), written).stages <==>
            ArrivesInOrder(turnId, frames)
  {
    StagesAreTheRecords(turnId, frames);
    StagesAreTheRecords(turnId, written);
    AllAreRecords(turnId, written, |written|);
    PickedFits(turnId, written, frames);
    PickedIsAllIffNothingIsLost(turnId, written, frames);
    NothingIsLostIffInOrder(turnId, frames);
    if |Picked(turnId, frames)| == |written| { SamePicked(turnId, written, frames); }
  }

  function StageFrame(turnId: string, stage: string, number: real): Frame {
    Frame("chat.stage", None, None, None, None, Some(turnId), Some(stage), Some(number))
  }

  lemma FoldOfTwo(prev: Stream, a: Frame, b: Frame)
    ensures FoldAll(prev, [a, b]) == FoldStream(FoldStream(prev, a), b)
  {
    assert [a, b][..1] == [a] && [a][..0] == [];
    assert FoldAll(prev, [a]) == FoldStream(FoldAll(prev, []), a);
  }

  /** The delivery that shows it: the second stage arrives first, and the first one is never shown. */
  lemma LateFrameIsDropped(turnId: string)
    requires turnId != ""
    ensures var first, second := StageFrame(turnId, "accepted", 1.0), StageFrame(turnId, "context", 2.0);
            && FoldAll(EmptyStream(turnId), [first, second]).stages == ["получено", "читаю контекст…"]
            && FoldAll(EmptyStream(turnId), [second, first]).stages == ["читаю контекст…"]
  {
    var first, second := StageFrame(turnId, "accepted", 1.0), StageFrame(turnId, "context", 2.0);
    assert Known(turnId, first) && Known(turnId, second);
    FoldOfTwo(EmptyStream(turnId), first, second);
    FoldOfTwo(EmptyStream(turnId), second, first);
  }

  // ------------------------------------------------- replays are absorbed

  lemma {:induction false} FoldSum(prev: Stream, a: seq<Frame>, b: seq<Frame>)
    ensures FoldAll(prev, a + b) == FoldAll(FoldAll(prev, a), b)
  {
    if b == [] {
      assert a + b == a;
    } else {
      assert (a + b)[..|a + b| - 1] == a + b[..|b| - 1];
      FoldSum(prev, a, b[..|b| - 1]);
    }
  }

  /** A frame that adds nothing where it stands: not about this turn, or delivered before. */
  predicate Echo(turnId: string, before: seq<Frame>, frame: Frame) {
    !Known(turnId, frame) || frame in before
  }

  lemma EchoIsAbsorbed(turnId: string, before: seq<Frame>, frame: Frame)
    requires Echo(turnId, before, frame)
    ensures FoldStream(FoldAll(EmptyStream(turnId), before), frame) == FoldAll(EmptyStream(turnId), before)
  {
    StagesAreTheRecords(turnId, before);
    if frame in before {
      var j :| 0 <= j < |before| && before[j] == frame;
    }
  }

  /** The delivered frames that are kept by the flags. */
  function Kept(frames: seq<Frame>, keep: seq<bool>): seq<Frame>
    requires |frames| == |keep|
  {
    if frames == [] then []
    else
      var n := |frames| - 1;
      Kept(frames[..n], keep[..n]) + if keep[n] then [frames[n]] else []
  }

  /**
   * Replay absorption: taking out of a delivery any number of frames that were delivered
   * before, belong to other turns, are other events or name unknown stages leaves the folded
   * turn as it is.
   */
  lemma {:induction false} ReplaysAreAbsorbed(turnId: string, frames: seq<Frame>, keep: seq<bool>)
    requires |frames| == |keep|
    requires forall i :: 0 <= i < |frames| && !keep[i] ==> Echo(turnId, frames[..i], frames[i])
    ensures FoldAll(EmptyStream(turnId), frames) == FoldAll(EmptyStream(turnId), Kept(frames, keep))
  {
    if frames == [] {
    } else {
      var n := |frames| - 1;
      var front, flags := frames[..n], keep[..n];
      forall i | 0 <= i < n && !flags[i] ensures Echo(turnId, front[..i], front[i]) {
        assert front[..i] == frames[..i];
      }
      ReplaysAreAbsorbed(turnId, front, flags);
      if keep[n] {
        FoldSum(EmptyStream(turnId), Kept(front, flags), [frames[n]]);
        assert [frames[n]][..0] == [];
      } else {
        EchoIsAbsorbed(turnId, front, frames[n]);
        assert Kept(frames, keep) == Kept(front, flags);
      }
    }
  }
}
