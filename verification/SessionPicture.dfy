/**
 * What a session shows, told by its own events: the screen pixel by pixel, the cursor, and the announcements around
 * them. The mapper is held against these; they know nothing of it.
 */
module SessionPicture {
  import opened Wrappers
  import opened Arithmetic
  import opened HelperProtocol
  import opened OutputMailbox
  import opened MailboxRuns
  import opened RdpOutputMapper

  // ---------- the screen ----------

  /** The session starts over: what came before is no base for regions any more. */
  predicate StartsOver(e: RdpOutputEvent) {
    e.DisplayResizeFallback? || e.ConnectionFailure? || e.Terminated?
  }

  /** The size of the last image since the session last started over. */
  function FrameSize(inputs: seq<RdpOutputEvent>): Option<(nat, nat)>
    decreases |inputs|
  {
    if inputs == [] then None
    else
      var last := inputs[|inputs| - 1];
      if last.Image? then Some((last.imageWidth, last.imageHeight))
      else if StartsOver(last) then None
      else FrameSize(inputs[..|inputs| - 1])
  }

  /** A region of a frame of that size: not empty, inside it, with four bytes a pixel. */
  predicate LiesIn(frame: Option<(nat, nat)>, e: RdpOutputEvent)
    requires e.ImageRegion?
  {
    && frame == Some((e.width, e.height))
    && e.region.width > 0 && e.region.x + e.region.width <= e.width
    && e.region.height > 0 && e.region.y + e.region.height <= e.height
    && |e.bgra| == 4 * (e.region.width * e.region.height)
  }

  /** Where byte k of the pixel in column x and row y stands. */
  function PixelByte(width: nat, x: nat, y: nat, k: nat): nat {
    (y * width + x) * 4 + k
  }

  predicate Covers(r: Region, x: nat, y: nat) {
    r.x <= x < r.x + r.width && r.y <= y < r.y + r.height
  }

  /** The byte of a screen after a region was placed on it. */
  function PlacedByte(screen: Screen, r: Region, bgra: seq<Byte>, at: nat): Byte
    requires screen.width > 0 && at < |screen.pixels|
  {
    var x, y := at / 4 % screen.width, at / 4 / screen.width;
    if Covers(r, x, y) && PixelByte(r.width, x - r.x, y - r.y, at % 4) < |bgra| then
      bgra[PixelByte(r.width, x - r.x, y - r.y, at % 4)]
    else
      screen.pixels[at]
  }

  function Placed(screen: Screen, r: Region, bgra: seq<Byte>): Screen {
    if screen.width == 0 then screen
    else
      screen.(pixels :=
        seq(|screen.pixels|, i requires 0 <= i < |screen.pixels| => PlacedByte(screen, r, bgra, i)))
  }

  /** The picture the session asks for: an image replaces it, a region of the current frame is placed on it. */
  function Picture(start: Screen, inputs: seq<RdpOutputEvent>): Screen
    decreases |inputs|
  {
    if inputs == [] then start
    else
      var front, last := inputs[..|inputs| - 1], inputs[|inputs| - 1];
      var before := Picture(start, front);
      if last.Image? then Screen(last.imageWidth, last.imageHeight, last.pixels)
      else if last.ImageRegion? && LiesIn(FrameSize(front), last) then Placed(before, last.region, last.bgra)
      else before
  }

  lemma ByteOfPixel(width: nat, x: nat, y: nat, k: nat)
    requires x < width && k < 4
    ensures var at := PixelByte(width, x, y, k); at / 4 % width == x && at / 4 / width == y && at % 4 == k
  {
    var at := PixelByte(width, x, y, k);
    Remainder(at, 4, y * width + x, k);
    Remainder(y * width + x, width, y, x);
  }

  lemma InsideData(width: nat, height: nat, i: nat, j: nat, k: nat)
    requires i < width && j < height && k < 4
    ensures PixelByte(width, i, j, k) < 4 * (width * height)
  {
    assert (j + 1) * width <= height * width by {
      Wider(j + 1, height, width);
    }
    assert (j + 1) * width == j * width + width;
  }

  lemma Wider(a: nat, b: nat, width: nat)
    requires a <= b
    ensures a * width <= b * width
  {
  }

  /**
   * Placing a region puts the pixel in column i and row j of its data at column x + i and row y + j of the screen, and
   * leaves every other pixel as it was.
   */
  lemma PlacedPixel(screen: Screen, r: Region, bgra: seq<Byte>, x: nat, y: nat, k: nat)
    requires |bgra| == 4 * (r.width * r.height) && x < screen.width && k < 4
    requires PixelByte(screen.width, x, y, k) < |screen.pixels|
    ensures var at, after := PixelByte(screen.width, x, y, k), Placed(screen, r, bgra);
            && after.width == screen.width && after.height == screen.height && |after.pixels| == |screen.pixels|
            && (!Covers(r, x, y) ==> after.pixels[at] == screen.pixels[at])
            && (forall i: nat, j: nat :: i < r.width && j < r.height && x == r.x + i && y == r.y + j ==>
                  PixelByte(r.width, i, j, k) < |bgra| && after.pixels[at] == bgra[PixelByte(r.width, i, j, k)])
  {
    hide PixelByte;
    ByteOfPixel(screen.width, x, y, k);
    if Covers(r, x, y) {
      InsideData(r.width, r.height, x - r.x, y - r.y, k);
    }
  }

  lemma ByteDrawn(screen: Screen, r: Region, bgra: seq<Byte>, at: nat)
    requires screen.width > 0 && at < |screen.pixels|
    ensures BlitByte(screen, Rect(r.x, r.y, r.width, r.height, |bgra|), bgra, at) == PlacedByte(screen, r, bgra, at)
  {
  }

  lemma RegionDrawn(screen: Screen, r: Region, bgra: seq<Byte>)
    requires screen.width > 0
    ensures PaintRects(screen, [Rect(r.x, r.y, r.width, r.height, |bgra|)], bgra) == Placed(screen, r, bgra)
  {
    hide BlitByte, PlacedByte, Blit, PaintRects;
    var rect := Rect(r.x, r.y, r.width, r.height, |bgra|);
    OneRectPainted(screen, rect, bgra);
    BlitKeepsShape(screen, rect, bgra);
    forall i | 0 <= i < |screen.pixels|
      ensures Blit(screen, rect, bgra).pixels[i] == Placed(screen, r, bgra).pixels[i]
    {
      BlitAt(screen, rect, bgra, i);
      ByteDrawn(screen, r, bgra, i);
    }
  }

  lemma BlitKeepsShape(screen: Screen, r: Rect, data: seq<Byte>)
    ensures var after := Blit(screen, r, data);
            after.width == screen.width && after.height == screen.height && |after.pixels| == |screen.pixels|
  {
    hide BlitByte;
  }

  lemma DrawnOneMore(start: Screen, events: seq<HelperEvent>, e: HelperEvent)
    ensures DrawAll(start, events + [e]) == Draw(DrawAll(start, events), e)
  {
    assert (events + [e])[..|events|] == events;
  }

  lemma {:induction false} QuietDrawsNothing(start: Screen, events: seq<HelperEvent>, more: seq<HelperEvent>)
    requires NoVideo(more)
    ensures DrawAll(start, events + more) == DrawAll(start, events)
    decreases |more|
  {
    if more == [] {
      assert events + more == events;
    } else {
      var front, last := more[..|more| - 1], more[|more| - 1];
      QuietDrawsNothing(start, events, front);
      assert events + more == (events + front) + [last];
      DrawnOneMore(start, events + front, last);
      OtherDrawsNothing(DrawAll(start, events), last);
    }
  }

  ghost predicate Follows(start: Screen, inputs: seq<RdpOutputEvent>) {
    var (s, out) := MapAll(inputs);
    && s.connected == FrameSize(inputs).Some? && s.baseSize == FrameSize(inputs)
    && DrawAll(start, out) == Picture(start, inputs)
    && (s.baseSize.Some? ==>
          Picture(start, inputs).width == s.baseSize.value.0 && Picture(start, inputs).height == s.baseSize.value.1)
  }

  lemma OneInputMore(inputs: seq<RdpOutputEvent>, e: RdpOutputEvent)
    ensures MapAll(inputs + [e]).0 == Mapped(MapAll(inputs).0, e).0
    ensures MapAll(inputs + [e]).1 == MapAll(inputs).1 + Mapped(MapAll(inputs).0, e).1
  {
    hide Mapped;
    assert (inputs + [e])[..|inputs|] == inputs;
  }

  lemma PictureOneMore(start: Screen, inputs: seq<RdpOutputEvent>, e: RdpOutputEvent)
    ensures FrameSize(inputs + [e]) ==
      if e.Image? then Some((e.imageWidth, e.imageHeight)) else if StartsOver(e) then None else FrameSize(inputs)
    ensures Picture(start, inputs + [e]) ==
      if e.Image? then Screen(e.imageWidth, e.imageHeight, e.pixels)
      else if e.ImageRegion? && LiesIn(FrameSize(inputs), e) then Placed(Picture(start, inputs), e.region, e.bgra)
      else Picture(start, inputs)
  {
    hide Placed, LiesIn;
    assert (inputs + [e])[..|inputs|] == inputs;
  }

  lemma HeldHasNoVideo(inputs: seq<RdpOutputEvent>)
    ensures NoVideo(HeldCursor(MapAll(inputs).0))
  {
    MapperFeedsWell(inputs);
    HeldIsQuiet(MapAll(inputs).0);
    hide MapAll, HeldCursor;
  }

  lemma ImageFollows(start: Screen, inputs: seq<RdpOutputEvent>, e: RdpOutputEvent)
    requires Follows(start, inputs) && e.Image?
    ensures Follows(start, inputs + [e])
  {
    hide MapAll, Picture, FrameSize, HeldCursor, DrawAll, Draw;
    var (s, out) := MapAll(inputs);
    OneInputMore(inputs, e);
    PictureOneMore(start, inputs, e);
    var frame := FrameBgraBytes(e.imageWidth, e.imageHeight, e.pixels);
    var quiet := if s.connected then [] else [HelperEvent.Connected(e.imageWidth, e.imageHeight)] + HeldCursor(s);
    HeldHasNoVideo(inputs);
    assert out + (quiet + [frame]) == (out + quiet) + [frame];
    DrawnOneMore(start, out + quiet, frame);
    ImageDrawn(DrawAll(start, out + quiet), frame);
    assert MapAll(inputs + [e]).1 == out + (quiet + [frame]);
  }

  lemma ImageDrawn(screen: Screen, e: HelperEvent)
    requires e.FrameBgraBytes?
    ensures Draw(screen, e) == Screen(e.width, e.height, e.bgra)
  {
  }

  lemma RegionFollows(start: Screen, inputs: seq<RdpOutputEvent>, e: RdpOutputEvent)
    requires Follows(start, inputs) && e.ImageRegion?
    ensures Follows(start, inputs + [e])
  {
    hide MapAll, Picture, FrameSize, HeldCursor, DrawAll, PaintRects, Placed;
    var (s, out) := MapAll(inputs);
    OneInputMore(inputs, e);
    PictureOneMore(start, inputs, e);
    if LiesIn(FrameSize(inputs), e) {
      var delta := FrameBgraRects(e.width, e.height,
        [Rect(e.region.x, e.region.y, e.region.width, e.region.height, |e.bgra|)], e.bgra);
      assert MapAll(inputs + [e]).1 == out + [delta];
      DrawnOneMore(start, out, delta);
      RegionDrawn(Picture(start, inputs), e.region, e.bgra);
      PlacedKeepsSize(Picture(start, inputs), e.region, e.bgra);
    } else {
      assert MapAll(inputs + [e]).1 == out + [] == out;
    }
  }

  lemma PlacedKeepsSize(screen: Screen, r: Region, bgra: seq<Byte>)
    ensures Placed(screen, r, bgra).width == screen.width && Placed(screen, r, bgra).height == screen.height
  {
  }

  lemma OtherFollows(start: Screen, inputs: seq<RdpOutputEvent>, e: RdpOutputEvent)
    requires Follows(start, inputs) && !e.Image? && !e.ImageRegion?
    ensures Follows(start, inputs + [e])
  {
    hide MapAll, Picture, FrameSize, HeldCursor, DrawAll, LiesIn;
    var (s, out) := MapAll(inputs);
    OneInputMore(inputs, e);
    PictureOneMore(start, inputs, e);
    QuietDrawsNothing(start, out, Mapped(s, e).1);
  }

  /** Whatever the session delivers, drawing the video the mapper emits gives exactly the picture it asks for. */
  lemma {:induction false} MapperShowsPicture(start: Screen, inputs: seq<RdpOutputEvent>)
    ensures DrawAll(start, MapAll(inputs).1) == Picture(start, inputs)
    ensures Follows(start, inputs)
    decreases |inputs|
  {
    hide MapAll, Picture, FrameSize, DrawAll, Follows;
    if inputs == [] {
      NothingFollows(start);
    } else {
      var front, last := inputs[..|inputs| - 1], inputs[|inputs| - 1];
      assert inputs == front + [last];
      MapperShowsPicture(start, front);
      if last.Image? {
        ImageFollows(start, front, last);
      } else if last.ImageRegion? {
        RegionFollows(start, front, last);
      } else {
        OtherFollows(start, front, last);
      }
    }
    FollowsDraws(start, inputs);
  }

  lemma NothingFollows(start: Screen)
    ensures Follows(start, [])
  {
  }

  lemma FollowsDraws(start: Screen, inputs: seq<RdpOutputEvent>)
    requires Follows(start, inputs)
    ensures DrawAll(start, MapAll(inputs).1) == Picture(start, inputs)
    ensures MapAll(inputs).0.baseSize == FrameSize(inputs)
  {
  }

  // ---------- the screen of the receiver ----------

  lemma {:induction false} FilterKeepsDrawing(start: Screen, events: seq<HelperEvent>)
    ensures DrawAll(start, VideoAndTerminals(events)) == DrawAll(start, events)
    decreases |events|
  {
    hide Draw;
    if events != [] {
      var front, last := events[..|events| - 1], events[|events| - 1];
      FilterKeepsDrawing(start, front);
      if last.IsVideo() || last.IsTerminal() {
        DrawnOneMore(start, VideoAndTerminals(front), last);
      } else {
        OtherDrawsNothing(DrawAll(start, front), last);
      }
    }
  }

  /** While there is a frame, nothing discarded by a terminal event is missing from the expected picture. */
  lemma {:induction false} ExpectedSinceFrame(start: Screen, log: seq<Entry>)
    requires Canvas(Accepted(log)).Some?
    ensures Watch(start, log).expected == DrawAll(start, Accepted(log))
    decreases |log|
  {
    hide Draw, DrawAll;
    if log != [] {
      var front, last := log[..|log| - 1], log[|log| - 1];
      assert log == front + [last];
      WatchGrows(start, front, last);
      if last.Sent? && last.event.IsVideo() {
        FeedGrows(Accepted(front), last.event);
        DrawnOneMore(start, Accepted(front), last.event);
        if last.event.FrameBgraBytes? {
          FrameIsPicture(Watch(start, front).expected, DrawAll(start, Accepted(front)), last.event);
        } else {
          ExpectedSinceFrame(start, front);
        }
      } else if last.Sent? && last.event.IsTerminal() {
        assert false;
      } else {
        ExpectedSinceFrame(start, front);
        if last.Sent? {
          OtherDrawsNothing(Watch(start, front).expected, last.event);
        }
      }
    }
  }

  /**
   * From the session to the screen: once everything the mapper emitted was sent, in order, through the mailbox, and
   * the session has a frame, a receiver that has drained the mailbox shows the picture the session asks for - under
   * every interleaving.
   */
  lemma SessionShown(start: Screen, w: World, inputs: seq<RdpOutputEvent>)
    requires Reachable(w) && w.mailbox.receiverAlive && !w.mailbox.Pending() && FrameSize(inputs).Some?
    requires Accepted(w.log) == VideoAndTerminals(MapAll(inputs).1)
    ensures Watch(start, w.log).drawn == Picture(start, inputs)
  {
    hide Reachable, Canvas, MapAll, DrawAll, Picture, FrameSize, Watch, Accepted, VideoAndTerminals, GoodFeed;
    MapperShowsPicture(start, inputs);
    FollowsDraws(start, inputs);
    MapperFeedsWell(inputs);
    FilteredFeed(MapAll(inputs).1);
    FilterKeepsDrawing(start, MapAll(inputs).1);
    ExpectedSinceFrame(start, w.log);
    SessionPictureKept(start, w, inputs);
  }

  // ---------- the cursor ----------

  /** The cursor the receiver is told, the one the session asks for, and whether an image came since the last start. */
  datatype Pointer = Pointer(told: Cursor, asked: Cursor, live: bool)

  function Pointed(c: Cursor, e: RdpOutputEvent): Cursor {
    match e
    case PointerDefault => c.(shape := Some(CursorDefault))
    case PointerHidden => c.(shape := Some(CursorHidden))
    case PointerPosition(x, y) => c.(position := Some((x, y)))
    case PointerBitmap(w, h, hx, hy, rgba) =>
      c.(shape := Some(if w == 0 || h == 0 then CursorHidden else CursorRgbaBytes(w, h, hx, hy, rgba)))
    case _ => c
  }

  /**
   * What the session asks for is told at once while it has a frame, and otherwise with its first image; what it asked
   * for without ever showing an image is forgotten when it starts over.
   */
  function PointerAfter(start: Cursor, inputs: seq<RdpOutputEvent>): Pointer
    decreases |inputs|
  {
    if inputs == [] then Pointer(start, start, false)
    else
      var p, last := PointerAfter(start, inputs[..|inputs| - 1]), inputs[|inputs| - 1];
      if last.Image? then Pointer(p.asked, p.asked, true)
      else if StartsOver(last) then Pointer(p.told, p.told, false)
      else
        var asked := Pointed(p.asked, last);
        Pointer(if p.live then asked else p.told, asked, p.live)
  }

  ghost predicate Pointing(start: Cursor, inputs: seq<RdpOutputEvent>) {
    var (s, out) := MapAll(inputs);
    var p := PointerAfter(start, inputs);
    && s.connected == p.live && MoveAll(start, out) == p.told
    && (p.live ==> HeldCursor(s) == [] && p.asked == p.told)
    && MoveAll(p.told, HeldCursor(s)) == p.asked
    && (s.appearance.Some? ==> s.appearance.value.IsCursor() && !s.appearance.value.CursorPosition?)
  }

  lemma PointerOneMore(start: Cursor, inputs: seq<RdpOutputEvent>, e: RdpOutputEvent)
    ensures var p := PointerAfter(start, inputs);
            PointerAfter(start, inputs + [e]) ==
              if e.Image? then Pointer(p.asked, p.asked, true)
              else if StartsOver(e) then Pointer(p.told, p.told, false)
              else Pointer(if p.live then Pointed(p.asked, e) else p.told, Pointed(p.asked, e), p.live)
  {
    assert (inputs + [e])[..|inputs|] == inputs;
  }

  lemma HeldMoves(c: Cursor, s: Session)
    requires s.appearance.Some? ==> s.appearance.value.IsCursor() && !s.appearance.value.CursorPosition?
    ensures MoveAll(c, HeldCursor(s)) ==
      Cursor(if s.appearance.Some? then s.appearance else c.shape, if s.position.Some? then s.position else c.position)
  {
    hide MoveAll;
    var shapes := if s.appearance.Some? then [s.appearance.value] else [];
    var places := if s.position.Some? then [CursorPosition(s.position.value.0, s.position.value.1)] else [];
    MoveAllAppend(c, shapes, places);
    MoveNone(c);
    MoveNone(MoveAll(c, shapes));
    if s.appearance.Some? {
      MoveOne(c, s.appearance.value);
    }
    if s.position.Some? {
      MoveOne(MoveAll(c, shapes), CursorPosition(s.position.value.0, s.position.value.1));
    }
  }

  lemma MoveNone(c: Cursor)
    ensures MoveAll(c, []) == c
  {
  }

  lemma ImagePoints(start: Cursor, inputs: seq<RdpOutputEvent>, e: RdpOutputEvent)
    requires Pointing(start, inputs) && e.Image?
    ensures Pointing(start, inputs + [e])
  {
    hide MapAll, MoveAll, HeldCursor;
    var (s, out) := MapAll(inputs);
    OneInputMore(inputs, e);
    PointerOneMore(start, inputs, e);
    var frame := FrameBgraBytes(e.imageWidth, e.imageHeight, e.pixels);
    var connected := HelperEvent.Connected(e.imageWidth, e.imageHeight);
    var told, s' := MoveAll(start, out), Mapped(s, e).0;
    HeldMoves(told, s);
    HeldMoves(told, s');
    HeldMoves(MoveAll(told, HeldCursor(s)), s');
    NothingHeld(s);
    NothingHeld(s');
    if s.connected {
      MoveAllAppend(start, out, [frame]);
      MoveOne(told, frame);
    } else {
      MoveAllAppend(start, out, [connected] + HeldCursor(s) + [frame]);
      MoveAllAppend(told, [connected] + HeldCursor(s), [frame]);
      MoveAllAppend(told, [connected], HeldCursor(s));
      MoveOne(told, connected);
      MoveOne(MoveAll(told, HeldCursor(s)), frame);
    }
  }

  lemma NothingHeld(s: Session)
    ensures HeldCursor(s) == [] <==> s.appearance.None? && s.position.None?
  {
  }

  predicate IsPointer(e: RdpOutputEvent) {
    e.PointerDefault? || e.PointerHidden? || e.PointerPosition? || e.PointerBitmap?
  }

  lemma OtherPoints(start: Cursor, inputs: seq<RdpOutputEvent>, e: RdpOutputEvent)
    requires Pointing(start, inputs) && !e.Image?
    ensures Pointing(start, inputs + [e])
  {
    hide Pointing;
    if StartsOver(e) {
      StartOverPoints(start, inputs, e);
    } else if IsPointer(e) {
      PointerPoints(start, inputs, e);
    } else {
      QuietPoints(start, inputs, e);
    }
  }

  lemma StartOverPoints(start: Cursor, inputs: seq<RdpOutputEvent>, e: RdpOutputEvent)
    requires Pointing(start, inputs) && StartsOver(e)
    ensures Pointing(start, inputs + [e])
  {
    hide MapAll, MoveAll, HeldCursor, LiesIn, Publishable;
    var (s, out) := MapAll(inputs);
    var more := Mapped(s, e).1;
    OneInputMore(inputs, e);
    PointerOneMore(start, inputs, e);
    NothingHeld(NEW_SESSION);
    MoveNone(MoveAll(start, out));
    assert more == [more[0]];
    MoveAllAppend(start, out, more);
    MoveOne(MoveAll(start, out), more[0]);
  }

  lemma CursorPointed(c: Cursor, e: RdpOutputEvent)
    requires IsPointer(e)
    ensures MoveCursor(c, CursorEvent(e)) == Pointed(c, e) && CursorEvent(e).IsCursor()
  {
  }

  /** A cursor event that is held back counts behind those held before. */
  lemma HoldMoves(c: Cursor, s: Session, cursor: HelperEvent)
    requires s.appearance.Some? ==> s.appearance.value.IsCursor() && !s.appearance.value.CursorPosition?
    requires cursor.IsCursor()
    ensures MoveAll(c, HeldCursor(Hold(s, cursor))) == MoveCursor(MoveAll(c, HeldCursor(s)), cursor)
  {
    hide MoveAll, HeldCursor;
    HeldMoves(c, s);
    HeldMoves(c, Hold(s, cursor));
  }

  lemma PointerPoints(start: Cursor, inputs: seq<RdpOutputEvent>, e: RdpOutputEvent)
    requires Pointing(start, inputs) && IsPointer(e)
    ensures Pointing(start, inputs + [e])
  {
    hide MapAll, MoveAll, MoveCursor, HeldCursor, LiesIn, Publishable, CursorEvent, Pointed;
    var (s, out) := MapAll(inputs);
    var cursor := CursorEvent(e);
    OneInputMore(inputs, e);
    PointerOneMore(start, inputs, e);
    CursorPointed(PointerAfter(start, inputs).asked, e);
    if s.connected {
      MoveAllAppend(start, out, [cursor]);
      MoveOne(MoveAll(start, out), cursor);
      MoveNone(MoveCursor(MoveAll(start, out), cursor));
    } else {
      HoldMoves(MoveAll(start, out), s, cursor);
      assert out + [] == out;
    }
  }

  lemma QuietPoints(start: Cursor, inputs: seq<RdpOutputEvent>, e: RdpOutputEvent)
    requires Pointing(start, inputs) && !e.Image? && !StartsOver(e) && !IsPointer(e)
    ensures Pointing(start, inputs + [e])
  {
    hide MapAll, MoveAll, HeldCursor, LiesIn, Publishable;
    var (s, out) := MapAll(inputs);
    var s', more := Mapped(s, e).0, Mapped(s, e).1;
    OneInputMore(inputs, e);
    PointerOneMore(start, inputs, e);
    HeldMoves(MoveAll(start, out), s);
    HeldMoves(MoveAll(start, out), s');
    NothingHeld(s);
    NothingHeld(s');
    if more == [] {
      assert out + more == out;
    } else {
      assert more == [more[0]];
      MoveAllAppend(start, out, more);
      MoveOne(MoveAll(start, out), more[0]);
      HeldMoves(MoveCursor(MoveAll(start, out), more[0]), s');
    }
  }

  /** Whatever the session delivers, the cursor events of the mapper leave the receiver with the cursor it is told. */
  lemma {:induction false} MapperShowsCursor(start: Cursor, inputs: seq<RdpOutputEvent>)
    ensures MoveAll(start, MapAll(inputs).1) == PointerAfter(start, inputs).told
    ensures Pointing(start, inputs)
    decreases |inputs|
  {
    hide MapAll, MoveAll, HeldCursor, PointerAfter;
    if inputs == [] {
      hide Pointing;
      NothingPoints(start);
    } else {
      var front, last := inputs[..|inputs| - 1], inputs[|inputs| - 1];
      assert inputs == front + [last];
      MapperShowsCursor(start, front);
      if last.Image? {
        ImagePoints(start, front, last);
      } else {
        OtherPoints(start, front, last);
      }
    }
    PointingTells(start, inputs);
  }

  lemma NothingPoints(start: Cursor)
    ensures Pointing(start, [])
  {
    NothingHeld(NEW_SESSION);
  }

  lemma PointingTells(start: Cursor, inputs: seq<RdpOutputEvent>)
    requires Pointing(start, inputs)
    ensures MoveAll(start, MapAll(inputs).1) == PointerAfter(start, inputs).told
  {
  }

  // ---------- the announcements ----------

  /** What is said about the session itself: a connection with its first image, and every start over. */
  function Announced(inputs: seq<RdpOutputEvent>): seq<HelperEvent>
    decreases |inputs|
  {
    if inputs == [] then []
    else
      var front, last := inputs[..|inputs| - 1], inputs[|inputs| - 1];
      Announced(front) +
      match last {
        case Image(_, w, h) => if FrameSize(front).None? then [HelperEvent.Connected(w, h)] else []
        case DisplayResizeFallback => [Reconnecting(DisplayUpdate, None)]
        case ConnectionFailure(report) => [HelperEvent.ConnectionFailure(report)]
        case Terminated(report) => [HelperEvent.Terminated(report)]
        case _ => []
      }
  }

  function ControlOf(events: seq<HelperEvent>): seq<HelperEvent>
    decreases |events|
  {
    if events == [] then []
    else
      ControlOf(events[..|events| - 1]) + if IsControl(events[|events| - 1]) then [events[|events| - 1]] else []
  }

  /** Video and cursor events stand only between a `Connected` and the end of that session. */
  predicate OnlyWhileConnected(events: seq<HelperEvent>)
    decreases |events|
  {
    events == [] ||
    var front, last := events[..|events| - 1], events[|events| - 1];
    OnlyWhileConnected(front) && (IsControl(last) || InSession(front))
  }

  /** The last announcement was that of a connection. */
  predicate InSession(events: seq<HelperEvent>) {
    var control := ControlOf(events);
    control != [] && control[|control| - 1].Connected?
  }

  lemma ControlOneMore(events: seq<HelperEvent>, e: HelperEvent)
    ensures ControlOf(events + [e]) == ControlOf(events) + if IsControl(e) then [e] else []
    ensures OnlyWhileConnected(events + [e]) <==> OnlyWhileConnected(events) && (IsControl(e) || InSession(events))
    ensures InSession(events + [e]) <==> if IsControl(e) then e.Connected? else InSession(events)
  {
    hide IsControl;
    assert (events + [e])[..|events|] == events;
  }

  /** Video and cursor events inside a session announce nothing and are in place. */
  lemma {:induction false} ShownInSession(events: seq<HelperEvent>, more: seq<HelperEvent>)
    requires OnlyWhileConnected(events) && InSession(events)
    requires forall i :: 0 <= i < |more| ==> !IsControl(more[i])
    ensures OnlyWhileConnected(events + more) && ControlOf(events + more) == ControlOf(events)
    decreases |more|
  {
    if more == [] {
      assert events + more == events;
    } else {
      var front, last := more[..|more| - 1], more[|more| - 1];
      ShownInSession(events, front);
      assert events + more == (events + front) + [last];
      ControlOneMore(events + front, last);
    }
  }

  ghost predicate Announcing(inputs: seq<RdpOutputEvent>) {
    var (s, out) := MapAll(inputs);
    && ControlOf(out) == Announced(inputs) && OnlyWhileConnected(out)
    && (s.connected <==> InSession(out)) && (s.connected <==> FrameSize(inputs).Some?)
  }

  lemma AnnouncedOneMore(inputs: seq<RdpOutputEvent>, e: RdpOutputEvent)
    ensures FrameSize(inputs + [e]) ==
      if e.Image? then Some((e.imageWidth, e.imageHeight)) else if StartsOver(e) then None else FrameSize(inputs)
    ensures Announced(inputs + [e]) == Announced(inputs) +
      match e {
        case Image(_, w, h) => if FrameSize(inputs).None? then [HelperEvent.Connected(w, h)] else []
        case DisplayResizeFallback => [Reconnecting(DisplayUpdate, None)]
        case ConnectionFailure(report) => [HelperEvent.ConnectionFailure(report)]
        case Terminated(report) => [HelperEvent.Terminated(report)]
        case _ => []
      }
  {
    assert (inputs + [e])[..|inputs|] == inputs;
  }

  lemma ImageAnnounces(inputs: seq<RdpOutputEvent>, e: RdpOutputEvent)
    requires Announcing(inputs) && e.Image?
    ensures Announcing(inputs + [e])
  {
    hide MapAll, Announced, ControlOf, OnlyWhileConnected, InSession, HeldCursor, FrameSize;
    var (s, out) := MapAll(inputs);
    OneInputMore(inputs, e);
    AnnouncedOneMore(inputs, e);
    var connected := HelperEvent.Connected(e.imageWidth, e.imageHeight);
    var frame := FrameBgraBytes(e.imageWidth, e.imageHeight, e.pixels);
    if s.connected {
      ControlOneMore(out, frame);
    } else {
      ControlOneMore(out, connected);
      HeldIsShown(inputs, frame);
      ShownInSession(out + [connected], HeldCursor(s) + [frame]);
      ControlSame(out + [connected], HeldCursor(s) + [frame]);
      Joined(out, [connected], HeldCursor(s), [frame]);
    }
  }

  lemma HeldIsShown(inputs: seq<RdpOutputEvent>, frame: HelperEvent)
    requires frame.IsVideo()
    ensures var shown := HeldCursor(MapAll(inputs).0) + [frame];
            forall i :: 0 <= i < |shown| ==> !IsControl(shown[i])
  {
    MapperFeedsWell(inputs);
    HeldIsQuiet(MapAll(inputs).0);
    hide MapAll, HeldCursor;
  }

  lemma Joined(a: seq<HelperEvent>, b: seq<HelperEvent>, c: seq<HelperEvent>, d: seq<HelperEvent>)
    ensures a + (b + c + d) == (a + b) + (c + d)
  {
  }

  lemma ControlSame(events: seq<HelperEvent>, more: seq<HelperEvent>)
    requires ControlOf(events + more) == ControlOf(events)
    ensures InSession(events + more) == InSession(events)
  {
  }

  lemma OtherAnnounces(inputs: seq<RdpOutputEvent>, e: RdpOutputEvent)
    requires Announcing(inputs) && !e.Image?
    ensures Announcing(inputs + [e])
  {
    hide MapAll, Announced, ControlOf, OnlyWhileConnected, InSession, HeldCursor, FrameSize;
    var (s, out) := MapAll(inputs);
    var more := Mapped(s, e).1;
    OneInputMore(inputs, e);
    AnnouncedOneMore(inputs, e);
    if more == [] {
      assert out + more == out;
    } else {
      assert more == [more[0]];
      ControlOneMore(out, more[0]);
    }
  }

  /**
   * Everything else the mapper emits is exactly what the session has to announce, in order; and video and cursor events
   * stand only between a `Connected` and the next start over.
   */
  lemma {:induction false} MapperAnnounces(inputs: seq<RdpOutputEvent>)
    ensures ControlOf(MapAll(inputs).1) == Announced(inputs) && OnlyWhileConnected(MapAll(inputs).1)
    ensures Announcing(inputs)
    decreases |inputs|
  {
    hide MapAll, Announced, ControlOf, OnlyWhileConnected, InSession;
    if inputs == [] {
      hide Announcing;
      NothingAnnounced();
    } else {
      var front, last := inputs[..|inputs| - 1], inputs[|inputs| - 1];
      assert inputs == front + [last];
      MapperAnnounces(front);
      if last.Image? {
        ImageAnnounces(front, last);
      } else {
        OtherAnnounces(front, last);
      }
    }
    assert Announcing(inputs);
  }

  lemma NothingAnnounced()
    ensures Announcing([])
  {
  }
}
