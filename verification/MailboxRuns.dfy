/**
 * Every interleaving of the mailbox: sender handles that send, clone and drop, the condition variable,
 * and one receiver thread that blocks, is woken (or wakes by itself) and may go away.
 * A sender notifies after it has released the lock, so the two are separate steps.
 */
module MailboxRuns {
  import opened Wrappers
  import opened HelperProtocol
  import opened OutputMailbox

  datatype Receiver = Outside | Waiting | Woken | Gone

  datatype Entry =
    | Sent(event: HelperEvent)
    | Rejected(event: HelperEvent)
    | Delivered(event: HelperEvent)
    | SawEnd

  datatype World = World(
    mailbox: State,
    handles: set<nat>,      // live sender handles
    nextHandle: nat,
    receiver: Receiver,
    notifications: nat,     // notify calls that have been decided on but not yet made
    log: seq<Entry>)

  datatype Action =
    | Send(handle: nat, event: HelperEvent)
    | CloneSender(handle: nat)
    | DropSender(handle: nat)
    | Notify
    | SpuriousWake
    | RecvPass
    | DropReceiver

  const START := World(EMPTY_MAILBOX, {0}, 1, Outside, 0, [])

  /** None when the action is not possible in this state. */
  function Step(w: World, a: Action): Option<World> {
    match a
    case Send(h, e) =>
      if h !in w.handles then None
      else if !w.mailbox.receiverAlive then Some(w.(log := w.log + [Rejected(e)]))
      else Some(w.(mailbox := Accept(w.mailbox, e), notifications := w.notifications + 1, log := w.log + [Sent(e)]))
    case CloneSender(h) =>
      if h !in w.handles then None
      else
        Some(w.(mailbox := w.mailbox.(senderCount := w.mailbox.senderCount + 1),
                handles := w.handles + {w.nextHandle}, nextHandle := w.nextHandle + 1))
    case DropSender(h) =>
      if h !in w.handles then None
      else
        var left := if w.mailbox.senderCount == 0 then 0 else w.mailbox.senderCount - 1;
        Some(w.(mailbox := w.mailbox.(senderCount := left), handles := w.handles - {h},
                notifications := w.notifications + (if left == 0 then 1 else 0)))
    case Notify =>
      if w.notifications == 0 then None
      else
        Some(w.(notifications := w.notifications - 1, receiver := if w.receiver.Waiting? then Woken else w.receiver))
    case SpuriousWake =>
      if w.receiver.Waiting? then Some(w.(receiver := Woken)) else None
    case RecvPass =>
      if w.receiver.Waiting? || w.receiver.Gone? then None
      else
        var (m, pass) := Receive(w.mailbox);
        Some(match pass {
          case Got(e) => w.(mailbox := m, receiver := Outside, log := w.log + [Delivered(e)])
          case EndOfStream => w.(mailbox := m, receiver := Outside, log := w.log + [SawEnd])
          case MustWait => w.(mailbox := m, receiver := Waiting)
        })
    case DropReceiver =>
      if w.receiver.Outside? then Some(w.(mailbox := Discarded(w.mailbox), receiver := Gone)) else None
  }

  function Run(w: World, actions: seq<Action>): Option<World>
    decreases |actions|
  {
    if actions == [] then Some(w)
    else
      var before := Run(w, actions[..|actions| - 1]);
      if before.None? then None else Step(before.value, actions[|actions| - 1])
  }

  ghost predicate Reachable(w: World) {
    exists actions: seq<Action> :: Run(START, actions) == Some(w)
  }

  // ---------- shutdown and wake-ups ----------

  ghost predicate Accounted(w: World) {
    && w.mailbox.senderCount == |w.handles|
    && (forall h :: h in w.handles ==> h < w.nextHandle)
    && (w.receiver.Gone? <==> !w.mailbox.receiverAlive)
    && (w.receiver.Gone? ==> !w.mailbox.Pending())
    && (w.receiver.Waiting? && (w.mailbox.Pending() || w.handles == {}) ==> w.notifications > 0)
  }

  lemma AccountedStep(w: World, a: Action)
    requires Accounted(w) && Step(w, a).Some?
    ensures Accounted(Step(w, a).value)
  {
    hide Accounted, Step;
    match a
    case Send(h, e) => AccountedSend(w, h, e);
    case CloneSender(h) => AccountedClone(w, h);
    case DropSender(h) => AccountedDrop(w, h);
    case RecvPass => AccountedReceive(w);
    case _ => AccountedOther(w, a);
  }

  lemma AccountedSend(w: World, h: nat, e: HelperEvent)
    requires Accounted(w) && Step(w, Send(h, e)).Some?
    ensures Accounted(Step(w, Send(h, e)).value)
  {
    hide WithoutCursor, MergeDeltas, EnqueueControl;
  }

  lemma AccountedClone(w: World, h: nat)
    requires Accounted(w) && Step(w, CloneSender(h)).Some?
    ensures Accounted(Step(w, CloneSender(h)).value)
  {
    assert (w.handles + {w.nextHandle}) - {w.nextHandle} == w.handles;
  }

  lemma AccountedDrop(w: World, h: nat)
    requires Accounted(w) && Step(w, DropSender(h)).Some?
    ensures Accounted(Step(w, DropSender(h)).value)
  {
    var left := w.handles - {h};
    assert |left| == |w.handles| - 1;
    if |left| == 0 {
      assert left == {};
    }
  }

  lemma AccountedReceive(w: World)
    requires Accounted(w) && Step(w, RecvPass).Some?
    ensures Accounted(Step(w, RecvPass).value)
  {
  }

  lemma AccountedOther(w: World, a: Action)
    requires Accounted(w) && Step(w, a).Some? && (a.Notify? || a.SpuriousWake? || a.DropReceiver?)
    ensures Accounted(Step(w, a).value)
  {
  }

  lemma {:induction false} AccountedRun(actions: seq<Action>)
    requires Run(START, actions).Some?
    ensures Accounted(Run(START, actions).value)
    decreases |actions|
  {
    if actions != [] {
      AccountedRun(actions[..|actions| - 1]);
      AccountedStep(Run(START, actions[..|actions| - 1]).value, actions[|actions| - 1]);
    }
  }

  /**
   * In every reachable state: the counter is the number of live handles, and a receiver that is blocked although
   * something is pending (or nobody can send any more) has a notification on its way, which wakes it.
   */
  lemma NoLostWakeUp(w: World)
    requires Reachable(w)
    ensures w.mailbox.senderCount == |w.handles|
    ensures w.receiver.Waiting? && (w.mailbox.Pending() || w.handles == {}) ==>
              Step(w, Notify).Some? && Step(w, Notify).value.receiver == Woken
  {
    var actions: seq<Action> :| Run(START, actions) == Some(w);
    AccountedRun(actions);
  }

  /** `recv` reports the end exactly when it may take a pass, no sender is left and everything is drained. */
  lemma EndOnlyWhenDrained(w: World)
    requires Reachable(w) && Step(w, RecvPass).Some?
    ensures Step(w, RecvPass).value.log == w.log + [SawEnd] <==> w.handles == {} && !w.mailbox.Pending()
  {
    var actions: seq<Action> :| Run(START, actions) == Some(w);
    AccountedRun(actions);
    var next := Step(w, RecvPass).value;
    match Receive(w.mailbox).1 {
      case Got(e) => assert next.log[|next.log| - 1] == Delivered(e);
      case EndOfStream =>
      case MustWait => assert |next.log| == |w.log|;
    }
  }

  /** It waits exactly when nothing is pending although somebody may still send; otherwise a pass delivers or ends. */
  lemma WaitsOnlyWhenEmpty(w: World)
    requires Reachable(w) && Step(w, RecvPass).Some?
    ensures var next := Step(w, RecvPass).value;
            && (next.receiver.Waiting? <==> !w.mailbox.Pending() && w.handles != {})
            && (w.mailbox.Pending() <==>
                  |next.log| > |w.log| && next.log[|w.log|].Delivered? && next.receiver.Outside?)
  {
    var actions: seq<Action> :| Run(START, actions) == Some(w);
    AccountedRun(actions);
  }

  /** A send is refused exactly when the receiver is gone, and from then on it stays gone and nothing is queued. */
  lemma {:induction false} RefusedOnceGone(w: World, h: nat, e: HelperEvent, more: seq<Action>)
    requires Reachable(w) && h in w.handles
    ensures Step(w, Send(h, e)).value.log == w.log + [Rejected(e)] <==> w.receiver.Gone?
    ensures w.receiver.Gone? && Run(w, more).Some? ==>
              Run(w, more).value.receiver.Gone? && !Run(w, more).value.mailbox.Pending()
              && !Run(w, more).value.mailbox.receiverAlive
    decreases |more|
  {
    var actions: seq<Action> :| Run(START, actions) == Some(w);
    AccountedRun(actions);
    var next := Step(w, Send(h, e)).value;
    assert next.log[|next.log| - 1] == if w.mailbox.receiverAlive then Sent(e) else Rejected(e);
    if w.receiver.Gone? && more != [] && Run(w, more).Some? {
      RefusedOnceGone(w, h, e, more[..|more| - 1]);
    }
  }

  // ---------- the control stream ----------

  predicate IsControl(e: HelperEvent) {
    !e.IsVideo() && !e.IsCursor()
  }

  function ControlSent(log: seq<Entry>): seq<HelperEvent>
    decreases |log|
  {
    if log == [] then []
    else
      var rest := ControlSent(log[..|log| - 1]);
      var last := log[|log| - 1];
      if last.Sent? && IsControl(last.event) then rest + [last.event] else rest
  }

  function ControlDelivered(log: seq<Entry>): seq<HelperEvent>
    decreases |log|
  {
    if log == [] then []
    else
      var rest := ControlDelivered(log[..|log| - 1]);
      var last := log[|log| - 1];
      if last.Delivered? && IsControl(last.event) then rest + [last.event] else rest
  }

  /** The receiver's cursor, and the cursor that all sent events ask for since the last barrier. */
  datatype CursorView = CursorView(delivered: Cursor, expected: Cursor)

  predicate IsBarrier(e: HelperEvent) {
    e.IsTerminal() || e.Reconnecting?
  }

  function FollowCursor(start: Cursor, log: seq<Entry>): CursorView
    decreases |log|
  {
    if log == [] then CursorView(start, start)
    else Follow(FollowCursor(start, log[..|log| - 1]), log[|log| - 1])
  }

  function Follow(v: CursorView, x: Entry): CursorView {
    match x
    case Sent(e) => v.(expected := if IsBarrier(e) then v.delivered else MoveCursor(v.expected, e))
    case Delivered(e) => v.(delivered := MoveCursor(v.delivered, e))
    case _ => v
  }

  /** No two neighbours are both cursor positions or both cursor bitmaps. */
  ghost predicate NoneCoalesce(control: seq<HelperEvent>) {
    forall i, j :: 0 <= i < j < |control| && j == i + 1 ==>
      && !(control[i].CursorPosition? && control[j].CursorPosition?)
      && !(control[i].CursorRgbaBytes? && control[j].CursorRgbaBytes?)
  }

  predicate NoVideo(control: seq<HelperEvent>) {
    forall i :: 0 <= i < |control| ==> !control[i].IsVideo()
  }

  lemma {:induction false} WithoutCursorFacts(control: seq<HelperEvent>)
    requires NoVideo(control)
    ensures NoVideo(WithoutCursor(control))
    ensures forall i :: 0 <= i < |WithoutCursor(control)| ==> !WithoutCursor(control)[i].IsCursor()
    ensures WithoutCursor(WithoutCursor(control)) == WithoutCursor(control)
    decreases |control|
  {
    if control != [] {
      var front := control[..|control| - 1];
      WithoutCursorFacts(front);
      var kept := WithoutCursor(front);
      assert (kept + [control[|control| - 1]])[..|kept|] == kept;
    }
  }

  lemma {:induction false} WithoutCursorAppend(a: seq<HelperEvent>, b: seq<HelperEvent>)
    ensures WithoutCursor(a + b) == WithoutCursor(a) + WithoutCursor(b)
    decreases |b|
  {
    if b == [] {
      assert a + b == a;
    } else {
      var front, last := b[..|b| - 1], b[|b| - 1];
      WithoutCursorAppend(a, front);
      assert (a + b)[..|a + b| - 1] == a + front;
      assert (a + b)[|a + b| - 1] == last;
    }
  }

  lemma WithoutCursorOne(e: HelperEvent)
    ensures WithoutCursor([e]) == if e.IsCursor() then [] else [e]
  {
    assert [e][..0] == [];
    assert WithoutCursor([]) == [];
  }

  lemma {:induction false} CursorFreeMovesNothing(c: Cursor, control: seq<HelperEvent>)
    requires forall i :: 0 <= i < |control| ==> !control[i].IsCursor()
    ensures MoveAll(c, control) == c
    decreases |control|
  {
    if control != [] {
      assert !control[0].IsCursor();
      CursorFreeMovesNothing(c, control[1..]);
    }
  }

  lemma MoveOne(c: Cursor, e: HelperEvent)
    ensures MoveAll(c, [e]) == MoveCursor(c, e)
  {
    assert [e][1..] == [];
    assert MoveAll(MoveCursor(c, e), []) == MoveCursor(c, e);
  }

  lemma EnqueueKeepsShape(control: seq<HelperEvent>, e: HelperEvent)
    requires NoneCoalesce(control) && NoVideo(control) && !e.IsVideo()
    ensures NoneCoalesce(EnqueueControl(control, e)) && NoVideo(EnqueueControl(control, e))
  {
  }

  lemma EnqueueKeepsOrder(control: seq<HelperEvent>, e: HelperEvent)
    ensures WithoutCursor(EnqueueControl(control, e)) == WithoutCursor(control) + WithoutCursor([e])
  {
    if control != [] && Coalesces(control[|control| - 1], e) {
      var front, last := control[..|control| - 1], control[|control| - 1];
      assert EnqueueControl(control, e) == front + [e] && control == front + [last];
      WithoutCursorAppend(front, [e]);
      WithoutCursorAppend(front, [last]);
      WithoutCursorOne(e);
      WithoutCursorOne(last);
    } else {
      WithoutCursorAppend(control, [e]);
    }
  }

  lemma CoalescedMoves(last: HelperEvent, e: HelperEvent, c: Cursor)
    requires Coalesces(last, e)
    ensures MoveCursor(MoveCursor(c, last), e) == MoveCursor(c, e)
  {
  }

  lemma Requeued(control: seq<HelperEvent>, e: HelperEvent)
    requires control != [] && Coalesces(control[|control| - 1], e)
    ensures EnqueueControl(control, e) == control[..|control| - 1] + [e]
    ensures control == control[..|control| - 1] + [control[|control| - 1]]
  {
  }

  lemma EnqueueMovesCursor(control: seq<HelperEvent>, e: HelperEvent, c: Cursor)
    ensures MoveAll(c, EnqueueControl(control, e)) == MoveCursor(MoveAll(c, control), e)
  {
    hide MoveAll, MoveCursor, Coalesces;
    MoveOne(MoveAll(c, control), e);
    if control != [] && Coalesces(control[|control| - 1], e) {
      var front, last := control[..|control| - 1], control[|control| - 1];
      Requeued(control, e);
      MoveAllAppend(c, front, [e]);
      MoveAllAppend(c, front, [last]);
      MoveOne(MoveAll(c, front), e);
      MoveOne(MoveAll(c, front), last);
      CoalescedMoves(last, e, MoveAll(c, front));
    } else {
      MoveAllAppend(c, control, [e]);
    }
  }

  lemma BarrierFacts(control: seq<HelperEvent>, e: HelperEvent, c: Cursor)
    requires NoVideo(control) && IsBarrier(e)
    ensures var queued := WithoutCursor(control) + [e];
            NoneCoalesce(queued) && NoVideo(queued)
            && WithoutCursor(queued) == WithoutCursor(control) + [e] && MoveAll(c, queued) == c
  {
    hide WithoutCursor, MoveAll, MoveCursor;
    var kept := WithoutCursor(control);
    WithoutCursorFacts(control);
    WithoutCursorAppend(kept, [e]);
    WithoutCursorOne(e);
    forall i, j | 0 <= i < j < |kept + [e]| && j == i + 1
      ensures !Coalesces((kept + [e])[i], (kept + [e])[j])
    {
      assert (kept + [e])[i] == kept[i];
    }
    CursorFreeMovesNothing(c, kept + [e]);
  }

  /** Nothing but the ordinary bookkeeping of the queue: its kind of events and what they add up to. */
  ghost predicate ControlKept(start: Cursor, w: World) {
    w.mailbox.receiverAlive ==>
      && NoVideo(w.mailbox.control)
      && NoneCoalesce(w.mailbox.control)
      && ControlDelivered(w.log) + WithoutCursor(w.mailbox.control) == ControlSent(w.log)
      && MoveAll(FollowCursor(start, w.log).delivered, w.mailbox.control) == FollowCursor(start, w.log).expected
      && (w.mailbox.latestFrame.Some? ==> w.mailbox.latestFrame.value.FrameBgraBytes?)
      && (w.mailbox.latestDelta.Some? ==> w.mailbox.latestDelta.value.FrameBgraRects?)
  }

  lemma LogGrows(start: Cursor, log: seq<Entry>, x: Entry)
    ensures ControlSent(log + [x]) == ControlSent(log) + (if x.Sent? && IsControl(x.event) then [x.event] else [])
    ensures ControlDelivered(log + [x])
      == ControlDelivered(log) + (if x.Delivered? && IsControl(x.event) then [x.event] else [])
    ensures FollowCursor(start, log + [x]) == Follow(FollowCursor(start, log), x)
  {
    assert (log + [x])[..|log|] == log;
  }

  lemma ControlSendStep(start: Cursor, w: World, h: nat, e: HelperEvent)
    requires ControlKept(start, w) && h in w.handles && w.mailbox.receiverAlive
    ensures ControlKept(start, Step(w, Send(h, e)).value)
  {
    hide WithoutCursor, MoveAll, ControlSent, ControlDelivered, FollowCursor, NoVideo, NoneCoalesce,
         EnqueueControl;
    LogGrows(start, w.log, Sent(e));
    var c := FollowCursor(start, w.log).delivered;
    if IsBarrier(e) {
      BarrierFacts(w.mailbox.control, e, c);
    } else if !e.IsVideo() {
      EnqueueKeepsShape(w.mailbox.control, e);
      EnqueueKeepsOrder(w.mailbox.control, e);
      EnqueueMovesCursor(w.mailbox.control, e, c);
      WithoutCursorOne(e);
    }
  }

  lemma FirstTaken(control: seq<HelperEvent>)
    requires control != []
    ensures WithoutCursor(control) == (if control[0].IsCursor() then [] else [control[0]]) + WithoutCursor(control[1..])
    ensures NoVideo(control) ==> NoVideo(control[1..]) && !control[0].IsVideo()
    ensures NoneCoalesce(control) ==> NoneCoalesce(control[1..])
  {
    assert control == [control[0]] + control[1..];
    WithoutCursorAppend([control[0]], control[1..]);
    WithoutCursorOne(control[0]);
  }

  lemma ControlRecvStep(start: Cursor, w: World)
    requires ControlKept(start, w) && Step(w, RecvPass).Some? && w.mailbox.receiverAlive
    ensures ControlKept(start, Step(w, RecvPass).value)
  {
    hide ControlSent, ControlDelivered, FollowCursor, WithoutCursor, NoVideo, NoneCoalesce;
    match Receive(w.mailbox).1 {
      case Got(e) =>
        LogGrows(start, w.log, Delivered(e));
        if w.mailbox.control != [] {
          FirstTaken(w.mailbox.control);
        }
      case EndOfStream =>
        LogGrows(start, w.log, SawEnd);
      case MustWait =>
    }
  }

  lemma {:induction false} ControlRun(start: Cursor, actions: seq<Action>)
    requires Run(START, actions).Some?
    ensures ControlKept(start, Run(START, actions).value)
    decreases |actions|
  {
    if actions != [] {
      var before, a := actions[..|actions| - 1], actions[|actions| - 1];
      ControlRun(start, before);
      AccountedRun(before);
      var w := Run(START, before).value;
      var w' := Step(w, a).value;
      if w.mailbox.receiverAlive {
        match a {
          case Send(h, e) => ControlSendStep(start, w, h, e);
          case RecvPass => ControlRecvStep(start, w);
          case _ => assert w'.log == w.log;
        }
      }
    }
  }

  /** Control events other than cursor events arrive exactly once and in the order they were sent. */
  lemma ControlExactlyOnce(w: World)
    requires Reachable(w) && w.mailbox.receiverAlive
    ensures ControlDelivered(w.log) + WithoutCursor(w.mailbox.control) == ControlSent(w.log)
    ensures w.mailbox.control == [] ==> ControlDelivered(w.log) == ControlSent(w.log)
  {
    var actions: seq<Action> :| Run(START, actions) == Some(w);
    ControlRun(Cursor(None, None), actions);
  }

  /** Video is delivered only when every control event sent before has been, and the cursor is the one asked for. */
  lemma ControlFirst(start: Cursor, w: World, e: HelperEvent)
    requires Reachable(w) && w.mailbox.receiverAlive && e.IsVideo()
    requires Step(w, RecvPass).Some? && Step(w, RecvPass).value.log == w.log + [Delivered(e)]
    ensures ControlDelivered(w.log) == ControlSent(w.log)
    ensures FollowCursor(start, w.log).delivered == FollowCursor(start, w.log).expected
  {
    hide ControlDelivered, ControlSent, FollowCursor, WithoutCursor, Reachable, NoneCoalesce;
    ControlExactlyOnce(w);
    CursorKept(start, w);
    var next := Step(w, RecvPass).value;
    if w.mailbox.control != [] {
      assert next.log[|w.log|] == Delivered(w.mailbox.control[0]);
      QueueHasNoVideo(start, w);
    }
  }

  lemma QueueHasNoVideo(start: Cursor, w: World)
    requires Reachable(w) && w.mailbox.receiverAlive
    ensures forall i :: 0 <= i < |w.mailbox.control| ==> !w.mailbox.control[i].IsVideo()
  {
    var actions: seq<Action> :| Run(START, actions) == Some(w);
    ControlRun(start, actions);
  }

  /** Folding cursor events never changes the cursor the receiver ends with, and leaves nothing more to fold. */
  lemma CursorKept(start: Cursor, w: World)
    requires Reachable(w) && w.mailbox.receiverAlive
    ensures NoneCoalesce(w.mailbox.control)
    ensures MoveAll(FollowCursor(start, w.log).delivered, w.mailbox.control) == FollowCursor(start, w.log).expected
    ensures w.mailbox.control == [] ==> FollowCursor(start, w.log).delivered == FollowCursor(start, w.log).expected
  {
    var actions: seq<Action> :| Run(START, actions) == Some(w);
    ControlRun(start, actions);
  }

  // ---------- the picture ----------

  /** What the receiver has drawn, and the picture that all sent video asks for since the last terminal event. */
  datatype PictureView = PictureView(drawn: Screen, expected: Screen)

  function Watch(start: Screen, log: seq<Entry>): PictureView
    decreases |log|
  {
    if log == [] then PictureView(start, start)
    else
      var v := Watch(start, log[..|log| - 1]);
      match log[|log| - 1]
      case Sent(e) => v.(expected := if e.IsTerminal() then v.drawn else Draw(v.expected, e))
      case Delivered(e) => v.(drawn := Draw(v.drawn, e))
      case _ => v
  }

  /** Every delta fits the canvas it was made for: the size of the picture at the moment it is sent. */
  ghost predicate DeltasFit(start: Screen, log: seq<Entry>)
    decreases |log|
  {
    log == [] ||
    (var front, last := log[..|log| - 1], log[|log| - 1];
     && DeltasFit(start, front)
     && (last.Sent? && last.event.FrameBgraRects? ==>
           FitsCanvas(last.event, Watch(start, front).expected.width, Watch(start, front).expected.height)))
  }

  function DrawPending(screen: Screen, m: State): Screen {
    var framed := if m.latestFrame.Some? then Draw(screen, m.latestFrame.value) else screen;
    if m.latestDelta.Some? then Draw(framed, m.latestDelta.value) else framed
  }

  ghost predicate PictureKept(start: Screen, w: World) {
    w.mailbox.receiverAlive ==>
      var v := Watch(start, w.log);
      && DrawPending(v.drawn, w.mailbox) == v.expected
      && (w.mailbox.latestFrame.Some? ==> w.mailbox.latestFrame.value.FrameBgraBytes?)
      && (w.mailbox.latestDelta.Some? ==> FitsCanvas(w.mailbox.latestDelta.value, v.expected.width, v.expected.height))
      && NoVideo(w.mailbox.control)
  }

  lemma DeltaKeepsSize(screen: Screen, e: HelperEvent)
    requires e.FrameBgraRects?
    ensures Draw(screen, e).width == screen.width && Draw(screen, e).height == screen.height
  {
    PaintKeepsSize(screen, e.rects, e.bgra);
  }

  lemma PictureSendStep(start: Screen, w: World, h: nat, e: HelperEvent)
    requires PictureKept(start, w) && h in w.handles && w.mailbox.receiverAlive
    requires DeltasFit(start, w.log + [Sent(e)])
    ensures PictureKept(start, Step(w, Send(h, e)).value)
  {
    hide Watch, DeltasFit, Draw, FitsCanvas, WithoutCursor, EnqueueControl, MergeDeltas, NoVideo;
    WatchGrows(start, w.log, Sent(e));
    var v, m := Watch(start, w.log), w.mailbox;
    if e.FrameBgraRects? {
      DeltaKeepsPicture(v, m, e);
    } else if e.FrameBgraBytes? {
      FrameIsPicture(v.drawn, v.expected, e);
    } else {
      ControlKeepsNoVideo(m.control, e);
      OtherDrawsNothing(v.expected, e);
    }
  }

  lemma WatchGrows(start: Screen, log: seq<Entry>, x: Entry)
    ensures var v := Watch(start, log);
            Watch(start, log + [x]) ==
              match x
              case Sent(e) => v.(expected := if e.IsTerminal() then v.drawn else Draw(v.expected, e))
              case Delivered(e) => v.(drawn := Draw(v.drawn, e))
              case _ => v
    ensures DeltasFit(start, log + [x]) ==>
              DeltasFit(start, log) && (x.Sent? && x.event.FrameBgraRects? ==>
                FitsCanvas(x.event, Watch(start, log).expected.width, Watch(start, log).expected.height))
  {
    hide Draw, FitsCanvas;
    assert (log + [x])[..|log|] == log;
  }

  lemma DeltaKeepsPicture(v: PictureView, m: State, e: HelperEvent)
    requires DrawPending(v.drawn, m) == v.expected && FitsCanvas(e, v.expected.width, v.expected.height)
    requires m.latestDelta.Some? ==> FitsCanvas(m.latestDelta.value, v.expected.width, v.expected.height)
    ensures var merged := if m.latestDelta.Some? then MergeDeltas(m.latestDelta.value, e) else e;
            var expected := Draw(v.expected, e);
            && DrawPending(v.drawn, m.(latestDelta := Some(merged))) == expected
            && FitsCanvas(merged, expected.width, expected.height)
  {
    hide PaintRects, MergeDeltas, TotalLen;
    DeltaKeepsSize(v.expected, e);
    if m.latestDelta.Some? {
      var framed := if m.latestFrame.Some? then Draw(v.drawn, m.latestFrame.value) else v.drawn;
      DeltaKeepsSize(framed, m.latestDelta.value);
      MergeComposes(framed, m.latestDelta.value, e);
    }
  }

  lemma FrameIsPicture(drawn: Screen, expected: Screen, e: HelperEvent)
    requires e.FrameBgraBytes?
    ensures Draw(drawn, e) == Draw(expected, e)
  {
  }

  lemma OtherDrawsNothing(screen: Screen, e: HelperEvent)
    requires !e.IsVideo()
    ensures Draw(screen, e) == screen
  {
  }

  lemma ControlKeepsNoVideo(control: seq<HelperEvent>, e: HelperEvent)
    requires NoVideo(control) && !e.IsVideo()
    ensures NoVideo(EnqueueControl(control, e)) && NoVideo(WithoutCursor(control) + [e])
  {
    WithoutCursorFacts(control);
  }

  lemma PictureRecvStep(start: Screen, w: World)
    requires PictureKept(start, w) && Step(w, RecvPass).Some? && w.mailbox.receiverAlive
    ensures PictureKept(start, Step(w, RecvPass).value)
  {
    hide Watch, DeltasFit, Draw, FitsCanvas, NoVideo;
    var m := w.mailbox;
    match Receive(m).1
    case Got(e) =>
      WatchGrows(start, w.log, Delivered(e));
      if m.control != [] {
        NoVideoFirst(m.control);
        OtherDrawsNothing(Watch(start, w.log).drawn, e);
      }
    case EndOfStream => WatchGrows(start, w.log, SawEnd);
    case MustWait =>
  }

  lemma NoVideoFirst(control: seq<HelperEvent>)
    requires control != [] && NoVideo(control)
    ensures !control[0].IsVideo() && NoVideo(control[1..])
  {
  }

  lemma {:induction false} PictureRun(start: Screen, actions: seq<Action>)
    requires Run(START, actions).Some? && DeltasFit(start, Run(START, actions).value.log)
    ensures PictureKept(start, Run(START, actions).value)
    decreases |actions|
  {
    if actions != [] {
      var before, a := actions[..|actions| - 1], actions[|actions| - 1];
      var w := Run(START, before).value;
      StepGrowsLog(start, w, a);
      PictureRun(start, before);
      AccountedRun(before);
      PictureStep(start, w, a);
    }
  }

  lemma StepGrowsLog(start: Screen, w: World, a: Action)
    requires Step(w, a).Some? && DeltasFit(start, Step(w, a).value.log)
    ensures DeltasFit(start, w.log)
  {
    hide DeltasFit, Accept, Receive;
    var log := Step(w, a).value.log;
    if log != w.log {
      assert log == w.log + [log[|log| - 1]];
      WatchGrows(start, w.log, log[|log| - 1]);
    }
  }

  lemma PictureStep(start: Screen, w: World, a: Action)
    requires PictureKept(start, w) && Accounted(w) && Step(w, a).Some? && DeltasFit(start, Step(w, a).value.log)
    ensures PictureKept(start, Step(w, a).value)
  {
    hide Watch, DeltasFit, Draw, FitsCanvas, NoVideo, Accept, Receive;
    if w.mailbox.receiverAlive {
      match a
      case Send(h, e) => PictureSendStep(start, w, h, e);
      case RecvPass => PictureRecvStep(start, w);
      case _ =>
    }
  }

  /**
   * Coalescing preserves the picture: in every reachable state, drawing what is pending on what the receiver has drawn
   * gives the picture of all video sent, so a receiver that has drained the mailbox shows exactly that picture.
   */
  lemma CoalescingPreservesPicture(start: Screen, w: World)
    requires Reachable(w) && w.mailbox.receiverAlive && DeltasFit(start, w.log)
    ensures DrawPending(Watch(start, w.log).drawn, w.mailbox) == Watch(start, w.log).expected
    ensures !w.mailbox.Pending() ==> Watch(start, w.log).drawn == Watch(start, w.log).expected
  {
    var actions: seq<Action> :| Run(START, actions) == Some(w);
    PictureRun(start, actions);
  }

  function VideoSent(log: seq<Entry>): seq<HelperEvent>
    decreases |log|
  {
    if log == [] then []
    else
      var rest := VideoSent(log[..|log| - 1]);
      var last := log[|log| - 1];
      if last.Sent? && last.event.IsVideo() then rest + [last.event] else rest
  }

  /** Without a terminal event, the expected picture is every video event sent, drawn one by one. */
  lemma {:induction false} ExpectedIsAllVideo(start: Screen, log: seq<Entry>)
    requires forall x :: x in log && x.Sent? ==> !x.event.IsTerminal()
    ensures Watch(start, log).expected == DrawAll(start, VideoSent(log))
    decreases |log|
  {
    if log != [] {
      var front, last := log[..|log| - 1], log[|log| - 1];
      ExpectedIsAllVideo(start, front);
      if last.Sent? && last.event.IsVideo() {
        var all := VideoSent(front) + [last.event];
        assert all[..|all| - 1] == VideoSent(front);
      } else {
        assert last in log;
      }
    }
  }
}
