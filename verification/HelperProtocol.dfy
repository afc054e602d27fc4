/** The events of the RDP helper and what they do to a receiver's screen and cursor. */
module HelperProtocol {
  import opened Wrappers

  datatype Rect = Rect(x: nat, y: nat, width: nat, height: nat, byteLen: nat)

  datatype ReconnectReason = DisplayUpdate | SessionError | ConnectionLost | Manual

  datatype HelperEvent =
    | Status(message: string)
    | Connected(width: nat, height: nat)
    | FrameBgraBytes(width: nat, height: nat, bgra: seq<Byte>)
    | FrameBgraRects(width: nat, height: nat, rects: seq<Rect>, bgra: seq<Byte>)
    | CursorDefault
    | CursorHidden
    | CursorPosition(x: nat, y: nat)
    | CursorRgbaBytes(width: nat, height: nat, hotspotX: nat, hotspotY: nat, rgba: seq<Byte>)
    | ClipboardText(text: string)
    | ClipboardFilesReady(transferId: nat, paths: seq<string>)
    | ClipboardTransferFailed(transferId: nat, message: string)
    | Reconnecting(reason: ReconnectReason, delaySecs: Option<nat>)
    | ConnectionFailure(message: string)
    | Terminated(message: string)
  {
    predicate IsVideo() {
      FrameBgraBytes? || FrameBgraRects?
    }

    predicate IsCursor() {
      CursorDefault? || CursorHidden? || CursorPosition? || CursorRgbaBytes?
    }

    predicate IsTerminal() {
      ConnectionFailure? || Terminated?
    }
  }

  // ---------- what a receiver shows ----------

  /** Four bytes a pixel, row by row. */
  datatype Screen = Screen(width: nat, height: nat, pixels: seq<Byte>)

  function PixelOffset(row: nat, column: nat, width: nat): nat {
    row * width + column
  }

  /** Where byte `i` of a screen of the given width comes from inside a rectangle's data, if the rectangle covers it. */
  function SourceIndex(screenWidth: nat, r: Rect, i: nat): Option<nat>
    requires 0 < screenWidth
  {
    var px, py := (i / 4) % screenWidth, (i / 4) / screenWidth;
    if r.x <= px < r.x + r.width && r.y <= py < r.y + r.height then
      Some(PixelOffset(py - r.y, px - r.x, r.width) * 4 + i % 4)
    else
      None
  }

  function BlitByte(screen: Screen, r: Rect, data: seq<Byte>, i: nat): Byte
    requires 0 < screen.width && i < |screen.pixels|
  {
    match SourceIndex(screen.width, r, i)
    case Some(j) => if j < |data| then data[j] else screen.pixels[i]
    case None => screen.pixels[i]
  }

  function Blit(screen: Screen, r: Rect, data: seq<Byte>): Screen {
    if screen.width == 0 then screen
    else
      screen.(pixels := seq(|screen.pixels|, i requires 0 <= i < |screen.pixels| => BlitByte(screen, r, data, i)))
  }

  /** Paints dirty rectangles in order; each takes its own `byteLen` bytes off the front of the data. */
  function PaintRects(screen: Screen, rects: seq<Rect>, bgra: seq<Byte>): Screen
    decreases |rects|
  {
    if rects == [] then screen
    else
      var n := Min(rects[0].byteLen, |bgra|);
      PaintRects(Blit(screen, rects[0], bgra[..n]), rects[1..], bgra[n..])
  }

  /** A delta for a canvas of another size is not painted. */
  function Draw(screen: Screen, e: HelperEvent): Screen {
    match e
    case FrameBgraBytes(w, h, bgra) => Screen(w, h, bgra)
    case FrameBgraRects(w, h, rects, bgra) =>
      if screen.width == w && screen.height == h then PaintRects(screen, rects, bgra) else screen
    case _ => screen
  }

  function DrawAll(screen: Screen, events: seq<HelperEvent>): Screen
    decreases |events|
  {
    if events == [] then screen
    else Draw(DrawAll(screen, events[..|events| - 1]), events[|events| - 1])
  }

  function TotalLen(rects: seq<Rect>): nat
    decreases |rects|
  {
    if rects == [] then 0 else rects[0].byteLen + TotalLen(rects[1..])
  }

  /** A delta that fits a canvas: same size, and the rectangles account for all the pixel bytes. */
  predicate FitsCanvas(e: HelperEvent, width: nat, height: nat) {
    e.FrameBgraRects? && e.width == width && e.height == height && TotalLen(e.rects) == |e.bgra|
  }

  lemma {:induction false} TotalLenAppend(a: seq<Rect>, b: seq<Rect>)
    ensures TotalLen(a + b) == TotalLen(a) + TotalLen(b)
    decreases |a|
  {
    if a == [] {
      assert a + b == b;
    } else {
      TotalLenAppend(a[1..], b);
      assert (a + b)[1..] == a[1..] + b;
    }
  }

  lemma {:induction false} PaintKeepsSize(screen: Screen, rects: seq<Rect>, bgra: seq<Byte>)
    ensures PaintRects(screen, rects, bgra).width == screen.width
    ensures PaintRects(screen, rects, bgra).height == screen.height
    decreases |rects|
  {
    if rects != [] {
      var n := Min(rects[0].byteLen, |bgra|);
      PaintKeepsSize(Blit(screen, rects[0], bgra[..n]), rects[1..], bgra[n..]);
    }
  }

  /** Concatenating two rectangle lists and their bytes paints the first list and then the second. */
  lemma {:induction false} PaintAppend(screen: Screen, r1: seq<Rect>, b1: seq<Byte>, r2: seq<Rect>, b2: seq<Byte>)
    requires TotalLen(r1) == |b1|
    ensures PaintRects(screen, r1 + r2, b1 + b2) == PaintRects(PaintRects(screen, r1, b1), r2, b2)
    decreases |r1|
  {
    if r1 == [] {
      assert r1 + r2 == r2 && b1 + b2 == b2;
    } else {
      var n := r1[0].byteLen;
      assert (r1 + r2)[1..] == r1[1..] + r2;
      assert (b1 + b2)[..n] == b1[..n];
      assert (b1 + b2)[n..] == b1[n..] + b2;
      PaintAppend(Blit(screen, r1[0], b1[..n]), r1[1..], b1[n..], r2, b2);
    }
  }

  // ---------- the cursor ----------

  datatype Cursor = Cursor(shape: Option<HelperEvent>, position: Option<(nat, nat)>)

  function MoveCursor(c: Cursor, e: HelperEvent): Cursor {
    match e
    case CursorPosition(x, y) => c.(position := Some((x, y)))
    case CursorDefault => c.(shape := Some(e))
    case CursorHidden => c.(shape := Some(e))
    case CursorRgbaBytes(_, _, _, _, _) => c.(shape := Some(e))
    case _ => c
  }

  function MoveAll(c: Cursor, events: seq<HelperEvent>): Cursor
    decreases |events|
  {
    if events == [] then c else MoveAll(MoveCursor(c, events[0]), events[1..])
  }

  lemma {:induction false} MoveAllAppend(c: Cursor, a: seq<HelperEvent>, b: seq<HelperEvent>)
    ensures MoveAll(c, a + b) == MoveAll(MoveAll(c, a), b)
    decreases |a|
  {
    if a == [] {
      assert a + b == b;
    } else {
      assert (a + b)[1..] == a[1..] + b;
      MoveAllAppend(MoveCursor(c, a[0]), a[1..], b);
    }
  }
}
