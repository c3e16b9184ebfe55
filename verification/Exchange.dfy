/** eval/crazeeval/proxy.py: `Exchange`, the bounded queue between an upstream response and
    a harness that may be slow, stalled or gone. */
module Exchanges {
  import opened Common
  import opened ByteStrings
  import opened FormChunking
  import opened Redaction

  datatype Item = Chunk(bytes: Bytes) | Eof

  datatype Queue = Queue(items: seq<Item>, queuedBytes: int, maxQueuedBytes: int, gone: bool, stalled: bool)

  const EmptyQueue: Queue := Queue([], 0, 0, false, false)

  // ---- specification: one call ---------------------------------------------

  function MarkGone(q: Queue, stalled: bool): Queue {
    if q.gone then q.(stalled := q.stalled || stalled)
    else Queue([Eof], 0, q.maxQueuedBytes, true, q.stalled || stalled)
  }

  function Offer(limit: nat, q: Queue, chunk: Bytes): Queue {
    if q.gone then q
    else if q.queuedBytes + |chunk| > limit then MarkGone(q, true)
    else
      var n := q.queuedBytes + |chunk|;
      q.(items := q.items + [Chunk(chunk)], queuedBytes := n, maxQueuedBytes := Max(q.maxQueuedBytes, n))
  }

  function TakeFrom(q: Queue): Queue
    requires q.items != []
  {
    q.(items := q.items[1..],
       queuedBytes := if q.items[0].Chunk? then q.queuedBytes - |q.items[0].bytes| else q.queuedBytes)
  }

  /** The exchange's task ends: `_exchange`'s finally. */
  function End(q: Queue): Queue { q.(items := q.items + [Eof]) }

  // ---- the class -----------------------------------------------------------

  class Exchange {
    const limit: nat
    var queue: seq<Item>
    var queuedBytes: int
    var maxQueuedBytes: int
    var gone: bool
    var stalled: bool

    ghost function State(): Queue reads this { Queue(queue, queuedBytes, maxQueuedBytes, gone, stalled) }

    constructor (limit: nat)
      ensures this.limit == limit && State() == EmptyQueue
    {
      this.limit := limit;
      queue, queuedBytes, maxQueuedBytes, gone, stalled := [], 0, 0, false, false;
    }

    /** `offer`: over the limit the harness counts as stalled, and is given up. */
    method OfferChunk(chunk: Bytes)
      modifies this
      ensures State() == Offer(limit, old(State()), chunk)
    {
      if gone {
        return;
      }
      if queuedBytes + |chunk| > limit {
        GiveUp(true);
        return;
      }
      queue := queue + [Chunk(chunk)];
      queuedBytes := queuedBytes + |chunk|;
      maxQueuedBytes := Max(maxQueuedBytes, queuedBytes);
    }

    method TakeItem() returns (item: Item)
      requires queue != []
      modifies this
      ensures item == old(queue)[0] && State() == TakeFrom(old(State()))
    {
      item := queue[0];
      queue := queue[1..];
      if item.Chunk? {
        queuedBytes := queuedBytes - |item.bytes|;
      }
    }

    /** `mark_gone`: the harness hung up or stopped reading. */
    method GiveUp(isStalled: bool)
      modifies this
      ensures State() == MarkGone(old(State()), isStalled)
    {
      if isStalled {
        stalled := true;
      }
      if gone {
        return;
      }
      gone := true;
      while queue != []
        invariant maxQueuedBytes == old(maxQueuedBytes) && gone
        invariant stalled == (old(stalled) || isStalled)
        decreases |queue|
      {
        queue := queue[1..];
      }
      queuedBytes := 0;
      queue := queue + [Eof];
    }

    method Finish()
      modifies this
      ensures State() == End(old(State()))
    {
      queue := queue + [Eof];
    }
  }

  // ---- every interleaving --------------------------------------------------

  /** The upstream task offers and ends; the handler takes, and may find the harness gone.
      The handler leaves its loop at the first end marker. */
  datatype Call = Offers(chunk: Bytes) | Takes | HangsUp(isStalled: bool) | Ends

  /** `taken`: the chunks the handler took. `held`: the redactor's tail. `written`: what went out
      to the harness. `left`: the handler took an end marker. */
  datatype Trace = Trace(q: Queue, offered: seq<Bytes>, taken: seq<Bytes>, held: Bytes, written: Bytes,
                         left: bool, ended: bool)

  const NewTrace: Trace := Trace(EmptyQueue, [], [], [], [], false, false)

  /** The handler's turn: what it takes is redacted, and written while the harness is there. */
  function Handle(forms: seq<Bytes>, t: Trace): Trace
    requires NonEmpty(forms) && t.q.items != []
  {
    match t.q.items[0]
    case Chunk(b) =>
      var (out, held) := Redaction.Step(forms, t.held, b);
      t.(q := TakeFrom(t.q), taken := t.taken + [b], held := held,
         written := if t.q.gone then t.written else t.written + out)
    case Eof =>
      t.(q := TakeFrom(t.q), left := true, held := [],
         written := if t.q.gone then t.written else t.written + ReplaceForms(t.held, forms))
  }

  function Step(limit: nat, forms: seq<Bytes>, t: Trace, c: Call): Trace
    requires NonEmpty(forms)
  {
    match c
    case Offers(chunk) => t.(q := Offer(limit, t.q, chunk), offered := t.offered + [chunk])
    case Takes => if t.left || t.q.items == [] then t else Handle(forms, t)   // no handler, or it waits
    case HangsUp(s) => t.(q := MarkGone(t.q, s))
    case Ends => t.(q := End(t.q), ended := true)
  }

  function Run(limit: nat, forms: seq<Bytes>, calls: seq<Call>): Trace
    requires NonEmpty(forms)
  {
    if calls == [] then NewTrace
    else Step(limit, forms, Run(limit, forms, calls[..|calls| - 1]), calls[|calls| - 1])
  }

  predicate EndsTheUpstream(c: Call) { c.Offers? || c.Ends? }

  /** The upstream task ends once, and offers nothing after. */
  predicate UpstreamEndsOnce(limit: nat, forms: seq<Bytes>, calls: seq<Call>)
    requires NonEmpty(forms)
  {
    calls == [] ||
    var (before, c) := (calls[..|calls| - 1], calls[|calls| - 1]);
    UpstreamEndsOnce(limit, forms, before) && (EndsTheUpstream(c) ==> !Run(limit, forms, before).ended)
  }

  function ChunkOf(item: Item): seq<Bytes> { match item case Chunk(b) => [b] case Eof => [] }

  function SizeOf(item: Item): nat { match item case Chunk(b) => |b| case Eof => 0 }

  /** The chunks in a queue, in order. */
  function Chunks(items: seq<Item>): seq<Bytes> {
    if items == [] then [] else ChunkOf(items[0]) + Chunks(items[1..])
  }

  function TotalSize(items: seq<Item>): nat {
    if items == [] then 0 else SizeOf(items[0]) + TotalSize(items[1..])
  }

  predicate OnlyEnds(items: seq<Item>) { forall i :: 0 <= i < |items| ==> items[i].Eof? }

  /** An end marker stands only last, and stands there exactly when the upstream ended. */
  predicate EndsLast(items: seq<Item>, ended: bool) {
    && (forall i :: 0 <= i < |items| - 1 ==> items[i].Chunk?)
    && (ended ==> items != [] && items[|items| - 1].Eof?)
    && (!ended && items != [] ==> items[|items| - 1].Chunk?)
  }

  ghost predicate QueueInv(limit: nat, t: Trace) {
    && t.q.queuedBytes == TotalSize(t.q.items) && t.q.queuedBytes <= t.q.maxQueuedBytes <= limit
    && t.taken <= t.offered
    && if t.q.gone then OnlyEnds(t.q.items) && (t.left || t.q.items != [])
       else t.taken + Chunks(t.q.items) == t.offered
            && if t.left then t.ended && t.q.items == [] else EndsLast(t.q.items, t.ended)
  }

  /** What the redactor let through so far, with its tail once the handler left. */
  function Passed(forms: seq<Bytes>, t: Trace): Bytes
    requires NonEmpty(forms)
  {
    if t.left then Relayed(forms, t.taken) else Redaction.Run(forms, t.taken).0
  }

  ghost predicate WrittenInv(forms: seq<Bytes>, t: Trace)
    requires NonEmpty(forms)
  {
    && (!t.left ==> t.held == Redaction.Run(forms, t.taken).1)
    && t.written <= Passed(forms, t)
    && (!t.q.gone ==> t.written == Passed(forms, t))
  }

  lemma {:induction false} QueueAppend(items: seq<Item>, item: Item)
    ensures Chunks(items + [item]) == Chunks(items) + ChunkOf(item)
    ensures TotalSize(items + [item]) == TotalSize(items) + SizeOf(item)
  {
    if items == [] {
      assert [item][1..] == [];
      assert items + [item] == [item];
      assert Chunks([item]) == ChunkOf(item) + Chunks([]);
    } else {
      assert (items + [item])[1..] == items[1..] + [item];
      QueueAppend(items[1..], item);
      Assoc(ChunkOf(items[0]), Chunks(items[1..]), ChunkOf(item));
    }
  }

  lemma OfferKeepsQueue(limit: nat, forms: seq<Bytes>, t: Trace, chunk: Bytes)
    requires NonEmpty(forms) && QueueInv(limit, t) && !t.ended
    ensures QueueInv(limit, Step(limit, forms, t, Offers(chunk)))
  {
    QueueAppend(t.q.items, Chunk(chunk));
    Assoc(t.taken, Chunks(t.q.items), [chunk]);
    assert t.offered + [chunk] == t.taken + ((t.offered + [chunk])[|t.taken|..]);
  }

  lemma TakeKeepsQueue(limit: nat, forms: seq<Bytes>, t: Trace)
    requires NonEmpty(forms) && QueueInv(limit, t)
    ensures QueueInv(limit, Step(limit, forms, t, Takes))
  {
    if !t.left && t.q.items != [] && !t.q.gone && t.q.items[0].Chunk? {
      var b := t.q.items[0].bytes;
      Assoc(t.taken, [b], Chunks(t.q.items[1..]));
    }
  }

  lemma EndKeepsQueue(limit: nat, forms: seq<Bytes>, t: Trace)
    requires NonEmpty(forms) && QueueInv(limit, t) && !t.ended
    ensures QueueInv(limit, Step(limit, forms, t, Ends))
  {
    QueueAppend(t.q.items, Eof);
    assert Chunks(t.q.items) + [] == Chunks(t.q.items);
  }

  lemma TakeKeepsWritten(limit: nat, forms: seq<Bytes>, t: Trace)
    requires NonEmpty(forms) && WrittenInv(forms, t)
    ensures WrittenInv(forms, Step(limit, forms, t, Takes))
  {
    if !t.left && t.q.items != [] && t.q.items[0].Chunk? {
      var b := t.q.items[0].bytes;
      assert (t.taken + [b])[..|t.taken|] == t.taken;
    }
  }

  lemma {:induction false} RunKeepsInv(limit: nat, forms: seq<Bytes>, calls: seq<Call>)
    requires NonEmpty(forms) && UpstreamEndsOnce(limit, forms, calls)
    ensures QueueInv(limit, Run(limit, forms, calls)) && WrittenInv(forms, Run(limit, forms, calls))
  {
    if calls != [] {
      var before := calls[..|calls| - 1];
      RunKeepsInv(limit, forms, before);
      var t := Run(limit, forms, before);
      match calls[|calls| - 1]
      case Offers(chunk) => OfferKeepsQueue(limit, forms, t, chunk);
      case Takes =>
        TakeKeepsQueue(limit, forms, t);
        TakeKeepsWritten(limit, forms, t);
      case HangsUp(_) =>
      case Ends => EndKeepsQueue(limit, forms, t);
    }
  }

  /** Whatever the interleaving: the queue is accounted exactly and never over its limit;
      what the handler took is a prefix of what was offered; once the harness is gone only
      end markers are queued; and a handler that has not left always finds something to
      take once the harness is gone or the upstream ended. */
  lemma AnyInterleaving(limit: nat, forms: seq<Bytes>, calls: seq<Call>)
    requires NonEmpty(forms) && UpstreamEndsOnce(limit, forms, calls)
    ensures var t := Run(limit, forms, calls);
            && t.q.queuedBytes == TotalSize(t.q.items) && t.q.maxQueuedBytes <= limit
            && t.taken <= t.offered
            && (t.q.gone ==> OnlyEnds(t.q.items))
            && (t.q.gone || t.ended ==> t.left || t.q.items != [])
  {
    RunKeepsInv(limit, forms, calls);
  }

  // ---- what the flags say --------------------------------------------------

  /** At the i-th call a chunk did not fit any more. */
  predicate Overflows(limit: nat, forms: seq<Bytes>, calls: seq<Call>, i: int)
    requires NonEmpty(forms)
  {
    0 <= i < |calls| && calls[i].Offers? &&
    var q := Run(limit, forms, calls[..i]).q;
    !q.gone && TotalSize(q.items) + |calls[i].chunk| > limit
  }

  predicate HungUp(calls: seq<Call>, i: int) { 0 <= i < |calls| && calls[i].HangsUp? }

  predicate FoundStalled(calls: seq<Call>, i: int) { 0 <= i < |calls| && calls[i] == HangsUp(true) }

  ghost predicate Told(limit: nat, forms: seq<Bytes>, calls: seq<Call>)
    requires NonEmpty(forms)
  {
    var q := Run(limit, forms, calls).q;
    && (q.gone <==> (exists i :: Overflows(limit, forms, calls, i)) || (exists i :: HungUp(calls, i)))
    && (q.stalled <==> (exists i :: Overflows(limit, forms, calls, i)) || (exists i :: FoundStalled(calls, i)))
  }

  /** What was queued at first, and after each call. */
  function Queued(limit: nat, forms: seq<Bytes>, calls: seq<Call>): seq<nat>
    requires NonEmpty(forms)
  {
    if calls == [] then [0]
    else Queued(limit, forms, calls[..|calls| - 1]) + [TotalSize(Run(limit, forms, calls).q.items)]
  }

  ghost predicate IsPeak(limit: nat, forms: seq<Bytes>, calls: seq<Call>)
    requires NonEmpty(forms)
  {
    var (peak, sizes) := (Run(limit, forms, calls).q.maxQueuedBytes, Queued(limit, forms, calls));
    peak in sizes && forall n :: n in sizes ==> n <= peak
  }

  lemma RunSnoc(limit: nat, forms: seq<Bytes>, before: seq<Call>, c: Call)
    requires NonEmpty(forms)
    ensures Run(limit, forms, before + [c]) == Step(limit, forms, Run(limit, forms, before), c)
  {
    assert (before + [c])[..|before|] == before;
  }

  lemma EarlierOverflow(limit: nat, forms: seq<Bytes>, before: seq<Call>, c: Call, i: int)
    requires NonEmpty(forms) && i < |before|
    ensures Overflows(limit, forms, before + [c], i) <==> Overflows(limit, forms, before, i)
  {
    if 0 <= i {
      assert (before + [c])[..i] == before[..i] && (before + [c])[i] == before[i];
    }
  }

  lemma OverflowSnoc(limit: nat, forms: seq<Bytes>, before: seq<Call>, c: Call)
    requires NonEmpty(forms)
    ensures (exists i :: Overflows(limit, forms, before + [c], i))
       <==> (exists i :: Overflows(limit, forms, before, i)) || Overflows(limit, forms, before + [c], |before|)
  {
    if i :| Overflows(limit, forms, before, i) {
      EarlierOverflow(limit, forms, before, c, i);
    }
    if i :| Overflows(limit, forms, before + [c], i) {
      if i < |before| {
        EarlierOverflow(limit, forms, before, c, i);
      }
    }
  }

  lemma HangUpSnoc(before: seq<Call>, c: Call)
    ensures (exists i :: HungUp(before + [c], i)) <==> (exists i :: HungUp(before, i)) || c.HangsUp?
    ensures (exists i :: FoundStalled(before + [c], i)) <==> (exists i :: FoundStalled(before, i)) || c == HangsUp(true)
  {
    var calls := before + [c];
    assert calls[|before|] == c && forall i :: 0 <= i < |before| ==> calls[i] == before[i];
    assert forall i :: 0 <= i < |before| ==> HungUp(calls, i) == HungUp(before, i);
    assert forall i :: 0 <= i < |before| ==> FoundStalled(calls, i) == FoundStalled(before, i);
    assert c.HangsUp? ==> HungUp(calls, |before|);
    assert c == HangsUp(true) ==> FoundStalled(calls, |before|);
  }

  /** What one call does to the flags. */
  lemma FlagsStep(limit: nat, forms: seq<Bytes>, t: Trace, c: Call)
    requires NonEmpty(forms) && QueueInv(limit, t)
    ensures var over := c.Offers? && !t.q.gone && TotalSize(t.q.items) + |c.chunk| > limit;
            var q := Step(limit, forms, t, c).q;
            (q.gone <==> t.q.gone || over || c.HangsUp?)
            && (q.stalled <==> t.q.stalled || over || c == HangsUp(true))
            && q.maxQueuedBytes == Max(t.q.maxQueuedBytes, q.queuedBytes)
  {
  }

  lemma ToldNext(limit: nat, forms: seq<Bytes>, before: seq<Call>, c: Call)
    requires NonEmpty(forms) && QueueInv(limit, Run(limit, forms, before)) && Told(limit, forms, before)
    ensures Told(limit, forms, before + [c])
  {
    var calls := before + [c];
    assert calls[..|before|] == before && calls[|before|] == c;
    RunSnoc(limit, forms, before, c);
    FlagsStep(limit, forms, Run(limit, forms, before), c);
    OverflowSnoc(limit, forms, before, c);
    HangUpSnoc(before, c);
  }

  lemma PeakNext(limit: nat, forms: seq<Bytes>, before: seq<Call>, c: Call)
    requires NonEmpty(forms) && IsPeak(limit, forms, before)
    requires QueueInv(limit, Run(limit, forms, before)) && QueueInv(limit, Run(limit, forms, before + [c]))
    ensures IsPeak(limit, forms, before + [c])
  {
    RunSnoc(limit, forms, before, c);
    FlagsStep(limit, forms, Run(limit, forms, before), c);
    assert (before + [c])[..|before|] == before;
  }

  /** What `gone`, `stalled` and the peak say, for every interleaving: the harness was given up
      exactly if it hung up or a chunk did not fit; it counts as stalled exactly if a chunk did
      not fit or the handler found it so; and the peak is the most that was ever queued. */
  lemma {:induction false} FlagsTell(limit: nat, forms: seq<Bytes>, calls: seq<Call>)
    requires NonEmpty(forms) && UpstreamEndsOnce(limit, forms, calls)
    ensures Told(limit, forms, calls) && IsPeak(limit, forms, calls)
  {
    if calls != [] {
      var (before, c) := (calls[..|calls| - 1], calls[|calls| - 1]);
      assert before + [c] == calls;
      FlagsTell(limit, forms, before);
      RunKeepsInv(limit, forms, before);
      RunKeepsInv(limit, forms, calls);
      ToldNext(limit, forms, before, c);
      PeakNext(limit, forms, before, c);
    }
  }

  /** The handler's next n turns. */
  function Turns(n: nat): seq<Call> { seq(n, _ => Takes) }

  /** And it leaves: once the harness is gone or the upstream ended, after at most as many turns
      as items are queued then. */
  lemma {:induction false} HandlerLeaves(limit: nat, forms: seq<Bytes>, calls: seq<Call>)
    requires NonEmpty(forms) && UpstreamEndsOnce(limit, forms, calls)
    requires Run(limit, forms, calls).q.gone || Run(limit, forms, calls).ended
    ensures Run(limit, forms, calls + Turns(|Run(limit, forms, calls).q.items|)).left
    decreases |Run(limit, forms, calls).q.items|
  {
    var t := Run(limit, forms, calls);
    var n := |t.q.items|;
    RunKeepsInv(limit, forms, calls);
    if t.left {
      StaysLeft(limit, forms, calls, n);
    } else {
      var one := calls + [Takes];
      assert one[..|calls|] == calls;
      assert calls + Turns(n) == one + Turns(n - 1);
      if t.q.items[0].Eof? {
        StaysLeft(limit, forms, one, n - 1);
      } else {
        HandlerLeaves(limit, forms, one);
      }
    }
  }

  lemma {:induction false} StaysLeft(limit: nat, forms: seq<Bytes>, calls: seq<Call>, n: nat)
    requires NonEmpty(forms) && Run(limit, forms, calls).left
    ensures Run(limit, forms, calls + Turns(n)).left
  {
    if n == 0 {
      assert calls + Turns(0) == calls;
    } else {
      StaysLeft(limit, forms, calls, n - 1);
      assert (calls + Turns(n))[..|calls| + n - 1] == calls + Turns(n - 1);
    }
  }

  /** A handler that left without the harness ever being given up took everything offered, and
      wrote all of it redacted: with independent forms, the whole response with every form
      replaced. In any case what went out is a start of that, and holds no key form. */
  lemma DeliveredWhole(limit: nat, forms: seq<Bytes>, calls: seq<Call>)
    requires AllHidable(forms) && UpstreamEndsOnce(limit, forms, calls)
    ensures var t := Run(limit, forms, calls);
            && (t.left && !t.q.gone ==> t.taken == t.offered && t.written == Relayed(forms, t.offered))
            && (t.left && !t.q.gone && Independent(forms) ==> t.written == ReplaceForms(Flatten(t.offered), forms))
            && t.written <= Relayed(forms, t.taken)
            && (forall i :: 0 <= i < |forms| ==> !Occurs(forms[i], t.written))
  {
    RunKeepsInv(limit, forms, calls);
    var t := Run(limit, forms, calls);
    var all := Relayed(forms, t.taken);
    NoKeyLeaves(forms, t.taken);
    if Independent(forms) {
      IndependentAnyChunking(forms, t.taken);
    }
    assert t.left && !t.q.gone ==> t.taken + [] == t.taken;
    assert all == t.written + all[|t.written|..];
    forall i | 0 <= i < |forms| ensures !Occurs(forms[i], t.written) {
      AbsentInParts(t.written, all[|t.written|..], forms[i]);
    }
  }
}
