/**
 * The producer in front of the mailbox: RDP session events become helper events.
 * It never emits a dirty rectangle before a base frame of the same size, which is what the mailbox relies on.
 */
module RdpOutputMapper {
  import opened Wrappers
  import opened HelperProtocol
  import opened MailboxRuns

  datatype Region = Region(x: nat, y: nat, width: nat, height: nat)

  datatype RdpOutputEvent =
    | Connected
    | LoginComplete
    | PostLogonDisplayRedraw
    | MalformedBitmapDisplayRedraw
    | DisplayResizeFallback
    | Image(pixels: seq<Byte>, imageWidth: nat, imageHeight: nat)
    | ImageRegion(bgra: seq<Byte>, width: nat, height: nat, region: Region)
    | ConnectionFailure(report: string)
    | Terminated(report: string)
    | PointerDefault
    | PointerHidden
    | PointerPosition(x: nat, y: nat)
    | PointerBitmap(pointerWidth: nat, pointerHeight: nat, hotspotX: nat, hotspotY: nat, rgba: seq<Byte>)

  datatype Session = Session(
    connected: bool,
    baseSize: Option<(nat, nat)>,
    appearance: Option<HelperEvent>,    // cursor events held back until the first image
    position: Option<(nat, nat)>)

  const NEW_SESSION := Session(false, None, None, None)

  function HeldCursor(s: Session): seq<HelperEvent> {
    (if s.appearance.Some? then [s.appearance.value] else [])
    + (if s.position.Some? then [CursorPosition(s.position.value.0, s.position.value.1)] else [])
  }

  function CursorEvent(e: RdpOutputEvent): HelperEvent
    requires e.PointerDefault? || e.PointerHidden? || e.PointerPosition? || e.PointerBitmap?
  {
    match e
    case PointerDefault => CursorDefault
    case PointerHidden => CursorHidden
    case PointerPosition(x, y) => CursorPosition(x, y)
    case PointerBitmap(w, h, hx, hy, rgba) =>
      if w == 0 || h == 0 then CursorHidden else CursorRgbaBytes(w, h, hx, hy, rgba)
  }

  predicate Publishable(s: Session, e: RdpOutputEvent)
    requires e.ImageRegion?
  {
    && s.connected
    && s.baseSize == Some((e.width, e.height))
    && e.region.width != 0 && e.region.height != 0
    && e.region.x + e.region.width <= e.width
    && e.region.y + e.region.height <= e.height
    && e.region.width * e.region.height * 4 == |e.bgra|
  }

  function Mapped(s: Session, e: RdpOutputEvent): (Session, seq<HelperEvent>) {
    match e
    case DisplayResizeFallback => (NEW_SESSION, [Reconnecting(DisplayUpdate, None)])
    case Image(pixels, w, h) =>
      var frame := FrameBgraBytes(w, h, pixels);
      if s.connected then (s.(baseSize := Some((w, h))), [frame])
      else (Session(true, Some((w, h)), None, None), [HelperEvent.Connected(w, h)] + HeldCursor(s) + [frame])
    case ImageRegion(bgra, w, h, r) =>
      if Publishable(s, e) then
        (s, [FrameBgraRects(w, h, [Rect(r.x, r.y, r.width, r.height, |bgra|)], bgra)])
      else
        (s, [])
    case ConnectionFailure(report) => (NEW_SESSION, [HelperEvent.ConnectionFailure(report)])
    case Terminated(report) => (NEW_SESSION, [HelperEvent.Terminated(report)])
    case Connected => (s, [])
    case LoginComplete => (s, [])
    case PostLogonDisplayRedraw => (s, [])
    case MalformedBitmapDisplayRedraw => (s, [])
    case _ =>
      var cursor := CursorEvent(e);
      if s.connected then (s, [cursor]) else (Hold(s, cursor), [])
  }

  /** Only the latest appearance and the latest position are held back. */
  function Hold(s: Session, cursor: HelperEvent): Session {
    if cursor.CursorPosition? then s.(position := Some((cursor.x, cursor.y)))
    else s.(appearance := Some(cursor))
  }

  class Mapper {
    var connected: bool
    var baseSize: Option<(nat, nat)>
    var appearance: Option<HelperEvent>
    var position: Option<(nat, nat)>

    function Snapshot(): Session
      reads this
    {
      Session(connected, baseSize, appearance, position)
    }

    constructor ()
      ensures Snapshot() == NEW_SESSION
    {
      connected, baseSize, appearance, position := false, None, None, None;
    }

    method Map(event: RdpOutputEvent) returns (events: seq<HelperEvent>)
      modifies this
      ensures (Snapshot(), events) == Mapped(old(Snapshot()), event)
    {
      events := [];
      match event {
        case DisplayResizeFallback =>
          ResetSession();
          events := [Reconnecting(DisplayUpdate, None)];
        case Image(pixels, w, h) =>
          if !connected {
            events := [HelperEvent.Connected(w, h)];
            connected := true;
            if appearance.Some? {
              events := events + [appearance.value];
              appearance := None;
            }
            if position.Some? {
              events := events + [CursorPosition(position.value.0, position.value.1)];
              position := None;
            }
          }
          baseSize := Some((w, h));
          assert !old(connected) ==> events == [HelperEvent.Connected(w, h)] + HeldCursor(old(Snapshot()));
          events := events + [FrameBgraBytes(w, h, pixels)];
          assert old(connected) ==> events == [FrameBgraBytes(w, h, pixels)];
        case ImageRegion(bgra, w, h, r) =>
          if !connected || baseSize != Some((w, h)) {
            return;
          }
          if r.width == 0 || r.height == 0 || r.x + r.width > w || r.y + r.height > h
             || r.width * r.height * 4 != |bgra| {
            return;
          }
          events := [FrameBgraRects(w, h, [Rect(r.x, r.y, r.width, r.height, |bgra|)], bgra)];
        case ConnectionFailure(report) =>
          ResetSession();
          events := [HelperEvent.ConnectionFailure(report)];
        case Terminated(report) =>
          ResetSession();
          events := [HelperEvent.Terminated(report)];
        case Connected =>
        case LoginComplete =>
        case PostLogonDisplayRedraw =>
        case MalformedBitmapDisplayRedraw =>
        case _ =>
          events := MapCursor(CursorEvent(event));
      }
    }

    method ResetSession()
      modifies this
      ensures Snapshot() == NEW_SESSION
    {
      connected, baseSize, appearance, position := false, None, None, None;
    }

    method MapCursor(cursor: HelperEvent) returns (events: seq<HelperEvent>)
      modifies this
      ensures old(connected) ==> Snapshot() == old(Snapshot()) && events == [cursor]
      ensures !old(connected) ==> events == []
      ensures !old(connected) ==> Snapshot() == Hold(old(Snapshot()), cursor)
    {
      if connected {
        return [cursor];
      }
      if cursor.CursorPosition? {
        position := Some((cursor.x, cursor.y));
      } else {
        appearance := Some(cursor);
      }
      return [];
    }
  }

  function MapAll(inputs: seq<RdpOutputEvent>): (Session, seq<HelperEvent>)
    decreases |inputs|
  {
    if inputs == [] then (NEW_SESSION, [])
    else
      var (s, out) := MapAll(inputs[..|inputs| - 1]);
      var (s', more) := Mapped(s, inputs[|inputs| - 1]);
      (s', out + more)
  }

  // ---------- what the feed guarantees ----------

  /** The size of the last frame since the last terminal event, if there is one. */
  function CanvasAfter(canvas: Option<(nat, nat)>, e: HelperEvent): Option<(nat, nat)> {
    if e.FrameBgraBytes? then Some((e.width, e.height))
    else if e.IsTerminal() then None
    else canvas
  }

  function Canvas(events: seq<HelperEvent>): Option<(nat, nat)>
    decreases |events|
  {
    if events == [] then None else CanvasAfter(Canvas(events[..|events| - 1]), events[|events| - 1])
  }

  predicate FitsFrame(canvas: Option<(nat, nat)>, e: HelperEvent) {
    e.FrameBgraRects? ==> canvas.Some? && FitsCanvas(e, canvas.value.0, canvas.value.1)
  }

  /** Every dirty rectangle follows a frame of its own size. */
  predicate GoodFeed(events: seq<HelperEvent>)
    decreases |events|
  {
    events == [] ||
    (GoodFeed(events[..|events| - 1]) && FitsFrame(Canvas(events[..|events| - 1]), events[|events| - 1]))
  }

  lemma FeedGrows(events: seq<HelperEvent>, e: HelperEvent)
    ensures Canvas(events + [e]) == CanvasAfter(Canvas(events), e)
    ensures GoodFeed(events + [e]) <==> GoodFeed(events) && FitsFrame(Canvas(events), e)
  {
    assert (events + [e])[..|events|] == events;
  }

  lemma {:induction false} QuietEvents(events: seq<HelperEvent>, more: seq<HelperEvent>)
    requires forall i :: 0 <= i < |more| ==> !more[i].IsVideo() && !more[i].IsTerminal()
    ensures Canvas(events + more) == Canvas(events)
    ensures GoodFeed(events + more) <==> GoodFeed(events)
    decreases |more|
  {
    if more == [] {
      assert events + more == events;
    } else {
      var front, last := more[..|more| - 1], more[|more| - 1];
      QuietEvents(events, front);
      FeedGrows(events + front, last);
      assert events + more == (events + front) + [last];
    }
  }

  lemma HeldIsQuiet(s: Session)
    requires s.appearance.Some? ==> s.appearance.value.IsCursor()
    ensures forall i :: 0 <= i < |HeldCursor(s)| ==> HeldCursor(s)[i].IsCursor()
  {
  }

  lemma SingleRect(r: Rect)
    ensures TotalLen([r]) == r.byteLen
  {
    assert [r][1..] == [];
    assert TotalLen([]) == 0;
  }

  ghost predicate InStep(s: Session, out: seq<HelperEvent>) {
    && GoodFeed(out)
    && (s.baseSize.Some? ==> s.baseSize == Canvas(out))
    && (s.appearance.Some? ==> s.appearance.value.IsCursor())
  }

  lemma FirstImageInStep(s: Session, out: seq<HelperEvent>, e: RdpOutputEvent)
    requires InStep(s, out) && e.Image? && !s.connected
    ensures InStep(Mapped(s, e).0, out + Mapped(s, e).1)
  {
    var frame := FrameBgraBytes(e.imageWidth, e.imageHeight, e.pixels);
    var quiet := [HelperEvent.Connected(e.imageWidth, e.imageHeight)] + HeldCursor(s);
    HeldIsQuiet(s);
    QuietEvents(out, quiet);
    FeedGrows(out + quiet, frame);
    assert Mapped(s, e).1 == quiet + [frame];
    assert out + (quiet + [frame]) == (out + quiet) + [frame];
  }

  lemma RegionInStep(s: Session, out: seq<HelperEvent>, e: RdpOutputEvent)
    requires InStep(s, out) && e.ImageRegion? && Publishable(s, e)
    ensures InStep(Mapped(s, e).0, out + Mapped(s, e).1)
  {
    var delta := Mapped(s, e).1[0];
    SingleRect(delta.rects[0]);
    FeedGrows(out, delta);
  }

  lemma MappedInStep(s: Session, out: seq<HelperEvent>, e: RdpOutputEvent)
    requires InStep(s, out)
    ensures InStep(Mapped(s, e).0, out + Mapped(s, e).1)
  {
    hide GoodFeed, Canvas, HeldCursor;
    if e.Image? && !s.connected {
      FirstImageInStep(s, out, e);
    } else if e.ImageRegion? && Publishable(s, e) {
      RegionInStep(s, out, e);
    } else if Mapped(s, e).1 == [] {
      assert out + [] == out;
    } else {
      FeedGrows(out, Mapped(s, e).1[0]);
    }
  }

  /** Whatever the session does, the mapper emits a good feed, and its base size is the canvas the feed has reached. */
  lemma {:induction false} MapperFeedsWell(inputs: seq<RdpOutputEvent>)
    ensures InStep(MapAll(inputs).0, MapAll(inputs).1)
    decreases |inputs|
  {
    if inputs != [] {
      var front := inputs[..|inputs| - 1];
      MapperFeedsWell(front);
      MappedInStep(MapAll(front).0, MapAll(front).1, inputs[|inputs| - 1]);
    }
  }

  // ---------- mapper and mailbox together ----------

  /** The video and terminal events among those the mailbox accepted. */
  function Accepted(log: seq<Entry>): seq<HelperEvent>
    decreases |log|
  {
    if log == [] then []
    else
      var rest := Accepted(log[..|log| - 1]);
      var last := log[|log| - 1];
      if last.Sent? && (last.event.IsVideo() || last.event.IsTerminal()) then rest + [last.event] else rest
  }

  /** A good feed keeps every delta on the canvas it was made for, whatever the receiver has drawn in the meantime. */
  lemma {:induction false} GoodFeedFits(start: Screen, log: seq<Entry>)
    requires GoodFeed(Accepted(log))
    ensures DeltasFit(start, log)
    ensures var canvas := Canvas(Accepted(log));
            canvas.Some? ==> Watch(start, log).expected.width == canvas.value.0
                             && Watch(start, log).expected.height == canvas.value.1
    decreases |log|
  {
    if log != [] {
      var front, last := log[..|log| - 1], log[|log| - 1];
      if last.Sent? && (last.event.IsVideo() || last.event.IsTerminal()) {
        FeedGrows(Accepted(front), last.event);
        GoodFeedFits(start, front);
        if last.event.FrameBgraRects? {
          DeltaKeepsSize(Watch(start, front).expected, last.event);
        }
      } else {
        GoodFeedFits(start, front);
      }
    }
  }

  function VideoAndTerminals(events: seq<HelperEvent>): seq<HelperEvent>
    decreases |events|
  {
    if events == [] then []
    else
      var rest := VideoAndTerminals(events[..|events| - 1]);
      var last := events[|events| - 1];
      if last.IsVideo() || last.IsTerminal() then rest + [last] else rest
  }

  lemma {:induction false} FilteredFeed(events: seq<HelperEvent>)
    requires GoodFeed(events)
    ensures GoodFeed(VideoAndTerminals(events)) && Canvas(VideoAndTerminals(events)) == Canvas(events)
    decreases |events|
  {
    if events != [] {
      FilteredFeed(events[..|events| - 1]);
      FeedGrows(VideoAndTerminals(events[..|events| - 1]), events[|events| - 1]);
    }
  }

  lemma {:induction false} FeedPrefix(events: seq<HelperEvent>, n: nat)
    requires GoodFeed(events) && n <= |events|
    ensures GoodFeed(events[..n])
    decreases |events|
  {
    if n < |events| {
      FeedPrefix(events[..|events| - 1], n);
      assert events[..|events| - 1][..n] == events[..n];
    } else {
      assert events[..n] == events;
    }
  }

  /**
   * End to end, with nothing assumed about the events themselves: if the video and terminal events that entered the
   * mailbox are a prefix of what one mapper emitted, in order, then in every reachable state drawing what is pending
   * on what the receiver shows gives exactly the picture of everything sent.
   */
  lemma SessionPictureKept(start: Screen, w: World, inputs: seq<RdpOutputEvent>)
    requires Reachable(w) && w.mailbox.receiverAlive
    requires Accepted(w.log) <= VideoAndTerminals(MapAll(inputs).1)
    ensures DrawPending(Watch(start, w.log).drawn, w.mailbox) == Watch(start, w.log).expected
    ensures !w.mailbox.Pending() ==> Watch(start, w.log).drawn == Watch(start, w.log).expected
  {
    MapperFeedsWell(inputs);
    FilteredFeed(MapAll(inputs).1);
    var feed := VideoAndTerminals(MapAll(inputs).1);
    assert Accepted(w.log) == feed[..|Accepted(w.log)|];
    FeedPrefix(feed, |Accepted(w.log)|);
    GoodFeedFits(start, w.log);
    CoalescingPreservesPicture(start, w);
  }
}
