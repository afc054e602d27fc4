/**
 * The coalescing mailbox between the RDP client threads and the single output writer.
 * The class is the code; the `State` functions say what each critical section does.
 */
module OutputMailbox {
  import opened Wrappers
  import opened HelperProtocol

  datatype State = State(
    control: seq<HelperEvent>,
    latestFrame: Option<HelperEvent>,
    latestDelta: Option<HelperEvent>,
    senderCount: nat,
    receiverAlive: bool)
  {
    predicate Pending() {
      control != [] || latestFrame.Some? || latestDelta.Some?
    }
  }

  /** What one pass of the `recv` loop does while it holds the lock. */
  datatype Pass = Got(event: HelperEvent) | EndOfStream | MustWait

  const EMPTY_MAILBOX := State([], None, None, 1, true)

  function MergeDeltas(previous: HelperEvent, next: HelperEvent): HelperEvent {
    if previous.FrameBgraRects? && next.FrameBgraRects?
       && previous.width == next.width && previous.height == next.height then
      FrameBgraRects(previous.width, previous.height, previous.rects + next.rects, previous.bgra + next.bgra)
    else
      next
  }

  function EnqueueControl(control: seq<HelperEvent>, event: HelperEvent): seq<HelperEvent> {
    if control != [] && Coalesces(control[|control| - 1], event) then
      control[|control| - 1 := event]
    else
      control + [event]
  }

  /** Adjacent cursor positions collapse, and adjacent cursor bitmaps collapse. */
  predicate Coalesces(a: HelperEvent, b: HelperEvent) {
    (a.CursorPosition? && b.CursorPosition?) || (a.CursorRgbaBytes? && b.CursorRgbaBytes?)
  }

  function WithoutCursor(control: seq<HelperEvent>): seq<HelperEvent>
    decreases |control|
  {
    if control == [] then []
    else
      var rest := WithoutCursor(control[..|control| - 1]);
      if control[|control| - 1].IsCursor() then rest else rest + [control[|control| - 1]]
  }

  function Accept(st: State, event: HelperEvent): State {
    match event
    case FrameBgraBytes(_, _, _) => st.(latestFrame := Some(event), latestDelta := None)
    case FrameBgraRects(_, _, _, _) =>
      st.(latestDelta := Some(if st.latestDelta.Some? then MergeDeltas(st.latestDelta.value, event) else event))
    case ConnectionFailure(_) =>
      st.(latestFrame := None, latestDelta := None, control := WithoutCursor(st.control) + [event])
    case Terminated(_) =>
      st.(latestFrame := None, latestDelta := None, control := WithoutCursor(st.control) + [event])
    case Reconnecting(_, _) => st.(control := WithoutCursor(st.control) + [event])
    case _ => st.(control := EnqueueControl(st.control, event))
  }

  function Receive(st: State): (State, Pass) {
    if st.control != [] then (st.(control := st.control[1..]), Got(st.control[0]))
    else if st.latestFrame.Some? then (st.(latestFrame := None), Got(st.latestFrame.value))
    else if st.latestDelta.Some? then (st.(latestDelta := None), Got(st.latestDelta.value))
    else if st.senderCount == 0 then (st, EndOfStream)
    else (st, MustWait)
  }

  function Discarded(st: State): State {
    st.(control := [], latestFrame := None, latestDelta := None, receiverAlive := false)
  }

  class Mailbox {
    var control: seq<HelperEvent>
    var latestFrame: Option<HelperEvent>
    var latestDelta: Option<HelperEvent>
    var senderCount: nat
    var receiverAlive: bool

    function Snapshot(): State
      reads this
    {
      State(control, latestFrame, latestDelta, senderCount, receiverAlive)
    }

    constructor ()
      ensures Snapshot() == EMPTY_MAILBOX
    {
      control, latestFrame, latestDelta := [], None, None;
      senderCount, receiverAlive := 1, true;
    }

    /** False when the receiver is gone; then nothing changes. */
    method Send(event: HelperEvent) returns (accepted: bool)
      modifies this
      ensures accepted == old(receiverAlive)
      ensures Snapshot() == if accepted then Accept(old(Snapshot()), event) else old(Snapshot())
    {
      hide MergeDeltas, EnqueueControl, WithoutCursor;
      if !receiverAlive {
        return false;
      }
      match event {
        case FrameBgraBytes(_, _, _) =>
          latestFrame := Some(event);
          latestDelta := None;
        case FrameBgraRects(_, _, _, _) =>
          latestDelta := Some(if latestDelta.Some? then MergeDeltas(latestDelta.value, event) else event);
        case ConnectionFailure(_) =>
          latestFrame, latestDelta := None, None;
          DiscardPendingCursorEvents();
          control := control + [event];
        case Terminated(_) =>
          latestFrame, latestDelta := None, None;
          DiscardPendingCursorEvents();
          control := control + [event];
        case Reconnecting(_, _) =>
          DiscardPendingCursorEvents();
          control := control + [event];
        case _ =>
          control := EnqueueControl(control, event);
      }
      return true;
    }

    method DiscardPendingCursorEvents()
      modifies this`control
      ensures control == WithoutCursor(old(control))
    {
      var kept: seq<HelperEvent> := [];
      var i := 0;
      while i < |control|
        invariant 0 <= i <= |control|
        invariant control == old(control)
        invariant kept == WithoutCursor(control[..i])
      {
        assert control[..i + 1][..i] == control[..i];
        if !control[i].IsCursor() {
          kept := kept + [control[i]];
        }
        i := i + 1;
      }
      assert control[..i] == control;
      control := kept;
    }

    method CloneSender()
      modifies this`senderCount
      ensures senderCount == old(senderCount) + 1
    {
      senderCount := senderCount + 1;
    }

    /** True when the last sender is gone, so that the receiver must be woken. */
    method DropSender() returns (closed: bool)
      modifies this`senderCount
      ensures senderCount == if old(senderCount) == 0 then 0 else old(senderCount) - 1
      ensures closed <==> senderCount == 0
    {
      if senderCount > 0 {
        senderCount := senderCount - 1;
      }
      closed := senderCount == 0;
    }

    /** One pass of the `recv` loop, from taking the lock to returning or waiting. */
    method ReceivePass() returns (pass: Pass)
      modifies this
      ensures (Snapshot(), pass) == Receive(old(Snapshot()))
    {
      if control != [] {
        pass := Got(control[0]);
        control := control[1..];
        return;
      }
      if latestFrame.Some? {
        pass := Got(latestFrame.value);
        latestFrame := None;
        return;
      }
      if latestDelta.Some? {
        pass := Got(latestDelta.value);
        latestDelta := None;
        return;
      }
      pass := if senderCount == 0 then EndOfStream else MustWait;
    }

    method DropReceiver()
      modifies this
      ensures Snapshot() == Discarded(old(Snapshot()))
    {
      receiverAlive := false;
      control, latestFrame, latestDelta := [], None, None;
    }
  }

  /** Merging is sequential composition: one delta that draws what the two draw one after the other. */
  lemma MergeComposes(screen: Screen, previous: HelperEvent, next: HelperEvent)
    requires FitsCanvas(previous, screen.width, screen.height)
    requires FitsCanvas(next, screen.width, screen.height)
    ensures FitsCanvas(MergeDeltas(previous, next), screen.width, screen.height)
    ensures Draw(screen, MergeDeltas(previous, next)) == Draw(Draw(screen, previous), next)
  {
    TotalLenAppend(previous.rects, next.rects);
    PaintKeepsSize(screen, previous.rects, previous.bgra);
    PaintAppend(screen, previous.rects, previous.bgra, next.rects, next.bgra);
  }

  /**
   * On which screens a merged delta draws what the two draw one after the other, for deltas of any sizes: exactly when
   * the sizes agree in width and height, or the first delta would have left the screen as it is.
   */
  lemma MergeComposesIff(screen: Screen, previous: HelperEvent, next: HelperEvent)
    requires previous.FrameBgraRects? && next.FrameBgraRects? && TotalLen(previous.rects) == |previous.bgra|
    ensures Draw(screen, MergeDeltas(previous, next)) == Draw(Draw(screen, previous), next)
      <==> (previous.width == next.width && previous.height == next.height) || Draw(screen, previous) == screen
  {
    hide Blit;
    PaintKeepsSize(screen, previous.rects, previous.bgra);
    PaintAppend(screen, previous.rects, previous.bgra, next.rects, next.bgra);
  }

  /** A pair that differs in height alone: merging a 1x1 delta into a 1x2 one draws neither on a 1x1 screen. */
  lemma MergeNeedsOneCanvas()
    ensures exists screen: Screen, previous: HelperEvent, next: HelperEvent ::
              FitsCanvas(previous, screen.width, screen.height)
              && next.FrameBgraRects? && TotalLen(next.rects) == |next.bgra| && next.width == previous.width
              && Draw(screen, MergeDeltas(previous, next)) != Draw(Draw(screen, previous), next)
  {
    hide PaintRects, Blit, Draw, MergeDeltas;
    var screen := Screen(1, 1, [0, 0, 0, 0]);
    var previous := FrameBgraRects(1, 1, [Rect(0, 0, 1, 1, 4)], [9, 9, 9, 9]);
    var next := FrameBgraRects(1, 2, [], []);
    OneRectFits(previous.rects[0]);
    OnePixelDrawn(screen, previous);
    MergeComposesIff(screen, previous, next);
    assert Draw(screen, MergeDeltas(previous, next)) != Draw(Draw(screen, previous), next);
  }

  lemma OneRectFits(r: Rect)
    ensures TotalLen([r]) == r.byteLen && TotalLen([]) == 0
  {
    assert [r][1..] == [];
  }

  lemma OnePixelDrawn(screen: Screen, e: HelperEvent)
    requires screen == Screen(1, 1, [0, 0, 0, 0]) && e == FrameBgraRects(1, 1, [Rect(0, 0, 1, 1, 4)], [9, 9, 9, 9])
    ensures Draw(screen, e).width == 1 && |Draw(screen, e).pixels| == 4 && Draw(screen, e).pixels[0] == 9
  {
    assert Draw(screen, e) == PaintRects(screen, [e.rects[0]], e.bgra) by {
      assert e.rects == [e.rects[0]];
      hide PaintRects;
    }
    hide *;
    OneRectPainted(screen, e.rects[0], e.bgra);
    BlitAt(screen, e.rects[0], e.bgra, 0);
    FirstByteDrawn(screen, e.bgra);
  }

  lemma FirstByteDrawn(screen: Screen, data: seq<Byte>)
    requires screen.width == 1 && |screen.pixels| > 0 && data != []
    ensures BlitByte(screen, Rect(0, 0, 1, 1, 4), data, 0) == data[0]
  {
    FirstByteSource();
    hide SourceIndex;
  }

  lemma OneRectPainted(screen: Screen, r: Rect, data: seq<Byte>)
    requires r.byteLen == |data|
    ensures PaintRects(screen, [r], data) == Blit(screen, r, data)
  {
    hide Blit;
    assert [r][1..] == [] && data[..|data|] == data;
  }

  lemma BlitAt(screen: Screen, r: Rect, data: seq<Byte>, i: nat)
    requires 0 < screen.width && i < |screen.pixels|
    ensures var b := Blit(screen, r, data);
      b.width == screen.width && |b.pixels| == |screen.pixels| && b.pixels[i] == BlitByte(screen, r, data, i)
  {
    hide BlitByte;
  }

  lemma FirstByteSource()
    ensures SourceIndex(1, Rect(0, 0, 1, 1, 4), 0) == Some(0)
  {
  }
}
