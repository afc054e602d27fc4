/**
 * Redis Pub/Sub events: a task puts messages into a bounded queue and counts those that find it full; a reader takes
 * messages out and reports the count. Both go on at the same time, so a publication is two steps - the attempt to send
 * and, when that failed, the count - and a read is several.
 */
module RedisPubSub {
  import opened Wrappers

  const DEFAULT_CAPACITY := 128
  const MAX_CAPACITY := 1024

  function Capacity(requested: Option<nat>): nat {
    var c := if requested.None? then DEFAULT_CAPACITY else requested.value;
    if c < 1 then 1 else if c > MAX_CAPACITY then MAX_CAPACITY else c
  }

  // ---------- task and reader interleaved ----------

  datatype Sent<M> = Sent(message: M, kept: bool)

  datatype Read<M> = Read(maxEvents: nat, waits: bool, values: seq<M>)

  /**
   * The stream, whether the task has a failed send it did not count yet, the read under way, and what happened so far:
   * messages published, delivered, reported as dropped.
   */
  datatype Stream<M> = Stream(
    capacity: nat,
    queue: seq<M>,
    dropped: nat,
    uncounted: bool,
    reading: Option<Read<M>>,
    published: seq<Sent<M>>,
    delivered: seq<M>,
    reported: nat)

  datatype Step<M> =
    | TrySend(message: M)
    | CountDrop
    | BeginRead(maxEvents: nat, waits: bool)
    | TakeFirst
    | Take
    | EndRead

  predicate Enabled<M>(s: Stream<M>, step: Step<M>) {
    match step
    case TrySend(_) => !s.uncounted
    case CountDrop => s.uncounted
    case BeginRead(_, _) => s.reading.None?
    case TakeFirst => s.reading.Some? && s.reading.value.waits && s.reading.value.values == [] && s.queue != []
    case Take => s.reading.Some? && |s.reading.value.values| < s.reading.value.maxEvents && s.queue != []
    case EndRead => s.reading.Some?
  }

  function Next<M>(s: Stream<M>, step: Step<M>): Stream<M>
    requires Enabled(s, step)
  {
    match step
    case TrySend(m) =>
      if |s.queue| < s.capacity then s.(queue := s.queue + [m], published := s.published + [Sent(m, true)])
      else s.(uncounted := true, published := s.published + [Sent(m, false)])
    case CountDrop => s.(uncounted := false, dropped := s.dropped + 1)
    case BeginRead(maxEvents, waits) => s.(reading := Some(Read(maxEvents, waits, [])))
    case TakeFirst => Taken(s)
    case Take => Taken(s)
    case EndRead =>
      s.(reading := None, delivered := s.delivered + s.reading.value.values, reported := s.reported + s.dropped,
         dropped := 0)
  }

  function Taken<M>(s: Stream<M>): Stream<M>
    requires s.reading.Some? && s.queue != []
  {
    var read := s.reading.value;
    s.(reading := Some(read.(values := read.values + [s.queue[0]])), queue := s.queue[1..])
  }

  function Opened<M>(requested: Option<nat>): Stream<M> {
    Stream(Capacity(requested), [], 0, false, None, [], [], 0)
  }

  /** The stream after the steps, or None when one of them was not enabled. */
  function After<M>(requested: Option<nat>, steps: seq<Step<M>>): Option<Stream<M>> {
    if steps == [] then Some(Opened(requested))
    else
      match After(requested, steps[..|steps| - 1])
      case None => None
      case Some(s) => if Enabled(s, steps[|steps| - 1]) then Some(Next(s, steps[|steps| - 1])) else None
  }

  lemma OneMore<M>(requested: Option<nat>, steps: seq<Step<M>>, s: Stream<M>, step: Step<M>)
    requires After(requested, steps) == Some(s) && Enabled(s, step)
    ensures After(requested, steps + [step]) == Some(Next(s, step))
  {
    assert (steps + [step])[..|steps|] == steps;
  }

  // ---------- the code, run alone ----------

  /** What a publication that meets this many queued messages comes down to. */
  function SendSteps<M>(m: M, full: bool): seq<Step<M>> {
    if full then [TrySend(m), CountDrop] else [TrySend(m)]
  }

  /** A waiting read takes the first message even when it asked for none. */
  function ReadSteps<M>(queued: nat, maxEvents: nat, waits: bool): seq<Step<M>> {
    var first := if waits && queued > 0 then 1 else 0;
    [BeginRead(maxEvents, waits)] + (if first > 0 then [TakeFirst] else [])
    + seq(TakenAlone(queued, maxEvents, waits) - first, i => Take) + [EndRead]
  }

  function TakenAlone(queued: nat, maxEvents: nat, waits: bool): (n: nat)
    ensures n <= queued && (waits && queued > 0 ==> n >= 1)
  {
    var wanted := if waits && maxEvents == 0 then 1 else maxEvents;
    if queued <= wanted then queued else wanted
  }

  class EventStream<M> {
    const capacity: nat
    var queue: seq<M>
    var dropped: nat
    ghost const requested: Option<nat>
    /** The steps taken so far. */
    ghost var steps: seq<Step<M>>

    /** The object is the stream after its steps. */
    ghost predicate Is(s: Stream<M>)
      reads this
    {
      && After(requested, steps) == Some(s)
      && s.capacity == capacity && s.queue == queue && s.dropped == dropped && !s.uncounted
    }

    /** It is between two operations. */
    ghost predicate Valid()
      reads this
    {
      After(requested, steps).Some? && Is(After(requested, steps).value) && After(requested, steps).value.reading.None?
    }

    constructor (asked: Option<nat>)
      ensures Valid() && requested == asked && capacity == Capacity(asked) && steps == []
    {
      capacity := Capacity(asked);
      queue, dropped := [], 0;
      requested, steps := asked, [];
    }

    /** What the task does with a message: try_send, and count a failure. */
    method Publish(m: M)
      requires Valid()
      modifies this
      ensures Valid() && steps == old(steps) + SendSteps(m, old(|queue|) >= capacity)
    {
      ghost var s := After(requested, steps).value;
      OneMore(requested, steps, s, TrySend(m));
      steps := steps + [TrySend(m)];
      if |queue| < capacity {
        queue := queue + [m];
      } else {
        OneMore(requested, steps, Next(s, TrySend(m)), CountDrop);
        steps := steps + [CountDrop];
        dropped := dropped + 1;
      }
    }

    /** Receiving one message. */
    method Receive(first: bool, ghost s: Stream<M>) returns (m: M, ghost s': Stream<M>)
      requires Is(s) && Enabled(s, if first then TakeFirst else Take)
      modifies this
      ensures Is(s') && s'.reading == Some(s.reading.value.(values := s.reading.value.values + [m]))
      ensures [m] + queue == old(queue) && dropped == old(dropped)
      ensures steps == old(steps) + [if first then TakeFirst else Take]
    {
      OneMore(requested, steps, s, if first then TakeFirst else Take);
      s' := Taken(s);
      steps := steps + [if first then TakeFirst else Take];
      m := queue[0];
      queue := queue[1..];
    }

    ghost method Begin(maxEvents: nat, waits: bool) returns (s: Stream<M>)
      requires Valid()
      modifies this`steps
      ensures Is(s) && s.reading == Some(Read(maxEvents, waits, []))
        && steps == old(steps) + [BeginRead(maxEvents, waits)]
    {
      s := After(requested, steps).value;
      OneMore(requested, steps, s, BeginRead(maxEvents, waits));
      s := Next(s, BeginRead(maxEvents, waits));
      steps := steps + [BeginRead(maxEvents, waits)];
    }

    /** Swapping the counter with zero, which ends the read. */
    method Finish(ghost s: Stream<M>) returns (droppedCount: nat)
      requires Is(s) && s.reading.Some?
      modifies this
      ensures Valid() && steps == old(steps) + [EndRead] && queue == old(queue)
      ensures droppedCount == old(dropped) && dropped == 0
    {
      OneMore(requested, steps, s, EndRead);
      steps := steps + [EndRead];
      droppedCount := dropped;
      dropped := 0;
    }

    /** Receiving the awaited message, or none when the read does not wait or the queue is empty. */
    method ReceiveFirst(waits: bool, ghost s: Stream<M>) returns (values: seq<M>, ghost s': Stream<M>)
      requires Is(s) && s.reading.Some? && s.reading.value.waits == waits && s.reading.value.values == []
      modifies this
      ensures Is(s') && s'.reading == Some(s.reading.value.(values := values))
      ensures values + queue == old(queue) && |values| == (if waits && old(queue) != [] then 1 else 0)
      ensures dropped == old(dropped) && steps == old(steps) + if |values| > 0 then [TakeFirst] else []
    {
      hide After, Next;
      values, s' := [], s;
      if waits && queue != [] {
        var m;
        m, s' := Receive(true, s);
        values := [m];
        assert s.reading.value.values + [m] == [m];
      }
    }

    /** Receiving what is queued, up to the limit. */
    method ReceiveRest(maxEvents: nat, first: seq<M>, ghost s: Stream<M>)
      returns (values: seq<M>, ghost s': Stream<M>)
      requires Is(s) && s.reading.Some? && s.reading.value.maxEvents == maxEvents && s.reading.value.values == first
      modifies this
      ensures Is(s') && s'.reading == Some(s.reading.value.(values := values))
      ensures |first| <= |values| && (|values| <= maxEvents || |values| == |first|)
      ensures values + queue == first + old(queue) && dropped == old(dropped)
      ensures |values| < maxEvents ==> queue == []
      ensures steps == old(steps) + seq(|values| - |first|, i => Take)
    {
      hide After, Next;
      values, s' := first, s;
      while |values| < maxEvents && queue != []
        invariant Is(s') && s'.reading == Some(s.reading.value.(values := values))
        invariant values + queue == first + old(queue) && dropped == old(dropped)
        invariant |first| <= |values| && (|values| <= maxEvents || |values| == |first|)
        invariant steps == old(steps) + seq(|values| - |first|, i => Take)
        decreases |queue|
      {
        OneTakeMore(old(steps), |values| - |first|);
        var m;
        m, s' := Receive(false, s');
        values := values + [m];
      }
    }

    /** The oldest messages in order, and the count of drops, which starts again. */
    method ReadEvent(maxEvents: nat, waits: bool) returns (values: seq<M>, droppedCount: nat)
      requires Valid()
      modifies this
      ensures Valid() && steps == old(steps) + ReadSteps(old(|queue|), maxEvents, waits)
      ensures values + queue == old(queue) && |values| == TakenAlone(old(|queue|), maxEvents, waits)
      ensures droppedCount == old(dropped) && dropped == 0
    {
      hide After, Next, Enabled, Taken, Is, ReadSteps;
      ghost var s := Begin(maxEvents, waits);
      var first;
      first, s := ReceiveFirst(waits, s);
      values, s := ReceiveRest(maxEvents, first, s);
      droppedCount := Finish(s);
      assert first + (values + queue)[|first|..] == values + queue;
      ReadIs(old(|queue|), maxEvents, waits, old(steps));
    }
  }

  lemma ReadIs<M>(queued: nat, maxEvents: nat, waits: bool, steps: seq<Step<M>>)
    ensures var first := if waits && queued > 0 then 1 else 0;
      steps + [BeginRead(maxEvents, waits)] + (if first > 0 then [TakeFirst] else [])
        + seq(TakenAlone(queued, maxEvents, waits) - first, i => Take) + [EndRead]
        == steps + ReadSteps(queued, maxEvents, waits)
  {
  }

  lemma OneTakeMore<M>(steps: seq<Step<M>>, n: nat)
    ensures steps + seq(n, i => Take) + [Take] == steps + seq(n + 1, i => Take)
  {
  }

  // ---------- nothing is lost ----------

  /** The messages the queue took, in the order they were published. */
  function KeptOf<M>(published: seq<Sent<M>>): seq<M> {
    if published == [] then []
    else
      var last := published[|published| - 1];
      KeptOf(published[..|published| - 1]) + if last.kept then [last.message] else []
  }

  function InHand<M>(s: Stream<M>): seq<M> {
    if s.reading.Some? then s.reading.value.values else []
  }

  function Uncounted<M>(s: Stream<M>): nat {
    if s.uncounted then 1 else 0
  }

  ghost predicate Accounted<M>(s: Stream<M>) {
    && 1 <= s.capacity <= MAX_CAPACITY && |s.queue| <= s.capacity
    && KeptOf(s.published) == s.delivered + (InHand(s) + s.queue)
    && |s.published| == |s.delivered| + |InHand(s)| + |s.queue| + s.reported + s.dropped + Uncounted(s)
    && (s.reported + s.dropped + Uncounted(s) > 0 ==> |KeptOf(s.published)| >= s.capacity)
  }

  lemma NextAccounts<M>(s: Stream<M>, step: Step<M>)
    requires Accounted(s) && Enabled(s, step)
    ensures Accounted(Next(s, step))
  {
    hide Accounted;
    match step
    case TrySend(m) => SendAccounts(s, m);
    case CountDrop => CountAccounts(s);
    case BeginRead(maxEvents, waits) => ReadAccounts(s, maxEvents, waits);
    case TakeFirst => TakenAccounts(s);
    case Take => TakenAccounts(s);
    case EndRead => ReadAccounts(s, 0, false);
  }

  lemma SendAccounts<M>(s: Stream<M>, m: M)
    requires Accounted(s) && !s.uncounted
    ensures Accounted(Next(s, TrySend(m)))
  {
    var s' := Next(s, TrySend(m));
    assert s'.published[..|s.published|] == s.published;
    if |s.queue| < s.capacity {
      assert s.delivered + (InHand(s) + (s.queue + [m])) == s.delivered + (InHand(s) + s.queue) + [m];
    }
  }

  lemma CountAccounts<M>(s: Stream<M>)
    requires Accounted(s) && s.uncounted
    ensures Accounted(Next(s, CountDrop))
  {
  }

  lemma ReadAccounts<M>(s: Stream<M>, maxEvents: nat, waits: bool)
    requires Accounted(s)
    ensures s.reading.None? ==> Accounted(Next(s, BeginRead(maxEvents, waits)))
    ensures s.reading.Some? ==> Accounted(Next(s, EndRead))
  {
    if s.reading.Some? {
      var s' := Next(s, EndRead);
      assert s'.delivered + (InHand(s') + s'.queue) == s.delivered + (InHand(s) + s.queue);
    }
  }

  lemma TakenAccounts<M>(s: Stream<M>)
    requires Accounted(s) && s.reading.Some? && s.queue != []
    ensures Accounted(Taken(s))
  {
    assert InHand(Taken(s)) + Taken(s).queue == InHand(s) + s.queue;
  }

  /**
   * Under every interleaving: each message published was delivered, is in a read under way, is queued, was reported
   * as dropped, waits to be reported or is about to be counted; the first three are the kept messages in the order
   * published; the queue never exceeds its capacity; and nothing is dropped before the queue has been filled once.
   */
  lemma {:induction false} NothingUnaccounted<M>(requested: Option<nat>, steps: seq<Step<M>>)
    requires After(requested, steps).Some?
    ensures Accounted(After(requested, steps).value)
    decreases |steps|
  {
    if steps != [] {
      NothingUnaccounted(requested, steps[..|steps| - 1]);
      NextAccounts(After(requested, steps[..|steps| - 1]).value, steps[|steps| - 1]);
    }
  }

  /** A read has just ended, it left nothing in the queue, and the counter is back at zero. */
  predicate Drained<M>(s: Stream<M>) {
    s.queue == [] && s.reading.None? && s.dropped == 0
  }

  /**
   * A reader that reads until nothing is left has the kept messages in order; with those reported as dropped they are
   * all that were published, if and only if the task is not between a failed send and its count.
   */
  lemma DrainedIsCompleteIff<M>(requested: Option<nat>, steps: seq<Step<M>>)
    requires After(requested, steps).Some? && Drained(After(requested, steps).value)
    ensures var s := After(requested, steps).value;
      && s.delivered == KeptOf(s.published)
      && (|s.delivered| + s.reported == |s.published| <==> !s.uncounted)
  {
    NothingUnaccounted(requested, steps);
  }

  /** The race: the second message finds the queue full, and a read drains it before the drop is counted. */
  function Race<M>(a: M, b: M): seq<Step<M>> {
    [TrySend(a), TrySend(b), BeginRead(1, false), Take, EndRead]
  }

  /** The reader is drained, the counter is zero, two messages were published and one is accounted for. */
  lemma RaceMissesDrop<M>(a: M, b: M)
    ensures After(Some(1), Race(a, b)) ==
      Some(Stream(1, [], 0, true, None, [Sent(a, true), Sent(b, false)], [a], 0))
  {
    var s0: Stream<M> := Opened(Some(1));
    var t0: seq<Step<M>> := [];
    var s1, t1 := RaceStep(t0, s0, TrySend(a));
    var s2, t2 := RaceStep(t1, s1, TrySend(b));
    assert s2 == Stream(1, [a], 0, true, None, [Sent(a, true), Sent(b, false)], [], 0);
    var s3, t3 := RaceStep(t2, s2, BeginRead(1, false));
    var s4, t4 := RaceStep(t3, s3, Take);
    assert s4 == s3.(reading := Some(Read(1, false, [a])), queue := []);
    var s5, t5 := RaceStep(t4, s4, EndRead);
    assert t5 == Race(a, b);
  }

  lemma RaceStep<M>(steps: seq<Step<M>>, s: Stream<M>, step: Step<M>) returns (s': Stream<M>, steps': seq<Step<M>>)
    requires After(Some(1), steps) == Some(s) && Enabled(s, step)
    ensures s' == Next(s, step) && steps' == steps + [step] && After(Some(1), steps') == Some(s')
  {
    OneMore(Some(1), steps, s, step);
    s', steps' := Next(s, step), steps + [step];
  }

  /** A missed drop is not lost: once it is counted, the next read to end reports it, whatever that read takes. */
  lemma MissedDropIsReported<M>(s: Stream<M>, maxEvents: nat, waits: bool)
    requires Accounted(s) && Drained(s) && s.uncounted
    ensures var counted := Next(s, CountDrop);
      var read := Next(Next(counted, BeginRead(maxEvents, waits)), EndRead);
      Drained(read) && read.delivered == s.delivered && |read.delivered| + read.reported == |read.published|
  {
  }

  /** A stream holds as many messages as were asked for, but at least one and at most 1024; 128 if nothing was said. */
  lemma CapacityIs(requested: Option<nat>)
    ensures Opened<int>(requested).capacity ==
      match requested
      case None => 128
      case Some(n) => if n == 0 then 1 else if n <= 1024 then n else 1024
  {
  }

  /** A read takes all that is queued, up to what it asked for; a waiting one at least the message it waited for. */
  lemma ReadTakes(queued: nat, maxEvents: nat, waits: bool)
    ensures TakenAlone(queued, maxEvents, waits) ==
      Min(queued, if waits && maxEvents == 0 then 1 else maxEvents)
  {
  }
}
