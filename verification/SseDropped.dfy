/** eval/crazeeval/capture.py, `SSEParser`: what it lets go of a stream is counted to the event
    and to the byte; and what it keeps is bounded. */
module SseDropped {
  import opened Common
  import opened ByteStrings
  import opened SseFraming
  import opened SseParsing

  // ---- the framing ---------------------------------------------------------

  function One(b: bool): nat { if b then 1 else 0 }

  /** What the framing lets go in one feed: events, and bytes. */
  function CutEvents(max: nat, f: Framing, chunk: Bytes): nat {
    One(|Rest(f.buf + chunk)| > max && !(f.skipping && Frames(f.buf + chunk) == []))
  }

  function CutBytes(max: nat, f: Framing, chunk: Bytes): nat {
    SkippedEnd(f, Frames(f.buf + chunk)) + Max(0, if |Rest(f.buf + chunk)| > max then |Rest(f.buf + chunk)| - 3 else 0)
  }

  /** All the events' bytes, and the unfinished end's. */
  function FrameBytes(s: Bytes): nat { |Flatten(Frames(s))| + |Rest(s)| }

  lemma {:induction false} FlattenConcat(a: seq<Bytes>, b: seq<Bytes>)
    ensures Flatten(a + b) == Flatten(a) + Flatten(b)
    decreases |b|
  {
    if b == [] {
      assert a + b == a;
    } else {
      assert (a + b)[..|a + b| - 1] == a + b[..|b| - 1];
      FlattenConcat(a, b[..|b| - 1]);
      Assoc(Flatten(a), Flatten(b[..|b| - 1]), b[|b| - 1]);
    }
  }

  lemma FlattenFront(first: Bytes, more: seq<Bytes>)
    ensures |Flatten([first] + more)| == |first| + |Flatten(more)|
  {
    FlattenConcat([first], more);
    assert [first][..0] == [];
    assert Flatten([first]) == Flatten([first][..0]) + first;
  }

  /** One feed: every event goes on, or is let go, or is being skipped; and every byte of one. */
  ghost predicate Accounted(max: nat, f: Framing, rest: Bytes, chunk: Bytes) {
    var (kept, f') := Feed(max, f, chunk);
    && |kept| + CutEvents(max, f, chunk) + One(f.skipping) == |Frames(rest + chunk)| + One(f'.skipping)
    && |Flatten(kept)| + CutBytes(max, f, chunk) + |f'.buf| + |rest| == FrameBytes(rest + chunk) + |f.buf|
  }

  lemma FeedAccounted(max: nat, f: Framing, rest: Bytes, chunk: Bytes)
    requires max >= 3 && Search(rest, 0).None? && Follows(max, f, rest)
    ensures Accounted(max, f, rest, chunk)
  {
    if f.skipping {
      SkippedSearch(rest, f.buf, chunk);
      if Search(f.buf + chunk, 0).Some? {
        EndAccounted(max, f, rest, chunk);
      }
    }
  }

  lemma EndAccounted(max: nat, f: Framing, rest: Bytes, chunk: Bytes)
    requires max >= 3 && Search(rest, 0).None? && Follows(max, f, rest) && f.skipping
    requires Search(f.buf + chunk, 0).Some? && Search(rest + chunk, 0).Some?
    requires AfterSep(rest + chunk) == AfterSep(f.buf + chunk)
    ensures Accounted(max, f, rest, chunk)
  {
    FirstBytes(f.buf + chunk);
    FirstBytes(rest + chunk);
    var cut := rest[..|rest| - |f.buf|];
    assert rest == cut + f.buf;
    SameDistance(cut, f.buf, chunk);
  }

  lemma FirstBytes(b: Bytes)
    requires Search(b, 0).Some?
    ensures Frames(b) != [] && Frames(b)[1..] == Frames(AfterSep(b)) && |Frames(b)[0]| == Search(b, 0).value
    ensures |Flatten(Frames(b))| == Search(b, 0).value + |Flatten(Frames(AfterSep(b)))|
    ensures Rest(b) == Rest(AfterSep(b))
  {
    FirstFrame(b);
    FlattenFront(b[..Search(b, 0).value], Frames(AfterSep(b)));
  }

  /** The separator is as far from the end of both. */
  lemma SameDistance(cut: Bytes, buf: Bytes, chunk: Bytes)
    requires Search(cut + buf, 0).None? && |buf| >= 3 && Search(buf + chunk, 0).Some?
    ensures Search(cut + buf + chunk, 0) == Some(|cut| + Search(buf + chunk, 0).value)
  {
    Assoc(cut, buf, chunk);
    CutSearch(cut, buf + chunk, cut + buf, chunk);
  }

  // ---- the store -----------------------------------------------------------

  /** What was dropped before does not matter for what is kept. */
  lemma {:induction false} DropFirst(l: Limits, c: Codec, s: Store, events: nat, bytes: nat, raws: seq<Bytes>)
    ensures TakeAll(l, c, Drop(s, events, bytes), raws) == Drop(TakeAll(l, c, s, raws), events, bytes)
  {
    if raws != [] {
      DropFirst(l, c, s, events, bytes, raws[..|raws| - 1]);
      DropTake(l, c, TakeAll(l, c, s, raws[..|raws| - 1]), events, bytes, raws[|raws| - 1]);
    }
  }

  lemma DropTake(l: Limits, c: Codec, s: Store, events: nat, bytes: nat, raw: Bytes)
    ensures Take(l, c, Drop(s, events, bytes), raw) == Drop(Take(l, c, s, raw), events, bytes)
  {
  }

  lemma FeedStoreIs(l: Limits, c: Codec, f: Framing, s: Store, chunk: Bytes)
    requires l.event >= 3
    ensures FeedStore(l, c, f, s, chunk)
         == Drop(TakeAll(l, c, s, Feed(l.event, f, chunk).0), CutEvents(l.event, f, chunk), CutBytes(l.event, f, chunk))
  {
    var frames := Frames(f.buf + chunk);
    DropFirst(l, c, s, 0, SkippedEnd(f, frames), Handed(f.skipping, frames));
  }

  /** Events and bytes let go. */
  datatype Cuts = Cuts(events: nat, bytes: nat) {
    function Plus(more: Cuts): Cuts { Cuts(events + more.events, bytes + more.bytes) }
  }

  function CutsOf(max: nat, f: Framing, chunk: Bytes): Cuts {
    Cuts(CutEvents(max, f, chunk), CutBytes(max, f, chunk))
  }

  /** What all feeds let go together. */
  function LetGo(max: nat, chunks: seq<Bytes>): Cuts {
    if chunks == [] then Cuts(0, 0)
    else
      var before := chunks[..|chunks| - 1];
      LetGo(max, before).Plus(CutsOf(max, Run(max, before).1, chunks[|chunks| - 1]))
  }

  lemma {:induction false} StoredIs(l: Limits, c: Codec, chunks: seq<Bytes>)
    requires l.event >= 3
    ensures Stored(l, c, chunks)
         == Drop(TakeAll(l, c, EmptyStore, Run(l.event, chunks).0),
                 LetGo(l.event, chunks).events, LetGo(l.event, chunks).bytes)
  {
    if chunks != [] {
      var (before, chunk) := (chunks[..|chunks| - 1], chunks[|chunks| - 1]);
      var (kept, f) := Run(l.event, before);
      var cuts := LetGo(l.event, before);
      var more := Feed(l.event, f, chunk).0;
      StoredIs(l, c, before);
      FeedStoreIs(l, c, f, Stored(l, c, before), chunk);
      DropFirst(l, c, TakeAll(l, c, EmptyStore, kept), cuts.events, cuts.bytes, more);
      TakeAllConcat(l, c, EmptyStore, kept, more);
    }
  }

  ghost predicate AllAccounted(max: nat, chunks: seq<Bytes>) {
    var (kept, f) := Run(max, chunks);
    var cuts := LetGo(max, chunks);
    && |kept| + cuts.events == |Frames(Flatten(chunks))| + One(f.skipping)
    && |Flatten(kept)| + cuts.bytes + |f.buf| == FrameBytes(Flatten(chunks))
  }

  lemma NothingAccounted(max: nat)
    ensures AllAccounted(max, [])
  {
    assert Search([], 0).None?;
  }

  lemma {:induction false} RunAccounted(max: nat, chunks: seq<Bytes>)
    requires max >= 3
    ensures AllAccounted(max, chunks)
  {
    if chunks == [] {
      NothingAccounted(max);
    } else {
      var (before, chunk) := (chunks[..|chunks| - 1], chunks[|chunks| - 1]);
      assert before + [chunk] == chunks;
      RunAccounted(max, before);
      NextAccounted(max, before, chunk);
      OneMoreAccounted(max, before, chunk);
    }
  }

  lemma NextAccounted(max: nat, before: seq<Bytes>, chunk: Bytes)
    requires max >= 3
    ensures Accounted(max, Run(max, before).1, Rest(Flatten(before)), chunk)
  {
    AnyChunking(max, before);
    RestHasNoSep(Flatten(before));
    FeedAccounted(max, Run(max, before).1, Rest(Flatten(before)), chunk);
  }

  lemma FrameBytesGrow(before: Bytes, chunk: Bytes)
    ensures |Frames(before + chunk)| == |Frames(before)| + |Frames(Rest(before) + chunk)|
    ensures FrameBytes(before + chunk) + |Rest(before)| == FrameBytes(before) + FrameBytes(Rest(before) + chunk)
  {
    FramesConcat(before, chunk);
    FlattenConcat(Frames(before), Frames(Rest(before) + chunk));
  }

  lemma RunSnoc(max: nat, before: seq<Bytes>, chunk: Bytes)
    ensures var (more, f) := Feed(max, Run(max, before).1, chunk);
            Run(max, before + [chunk]) == (Run(max, before).0 + more, f)
  {
    assert (before + [chunk])[..|before|] == before;
  }

  lemma LetGoSnoc(max: nat, before: seq<Bytes>, chunk: Bytes)
    ensures LetGo(max, before + [chunk]) == LetGo(max, before).Plus(CutsOf(max, Run(max, before).1, chunk))
  {
    assert (before + [chunk])[..|before|] == before;
  }

  lemma FlattenSnoc(before: seq<Bytes>, chunk: Bytes)
    ensures Flatten(before + [chunk]) == Flatten(before) + chunk
  {
    assert (before + [chunk])[..|before|] == before;
  }

  lemma OneMoreAccounted(max: nat, before: seq<Bytes>, chunk: Bytes)
    requires AllAccounted(max, before)
    requires Accounted(max, Run(max, before).1, Rest(Flatten(before)), chunk)
    ensures AllAccounted(max, before + [chunk])
  {
    FrameBytesGrow(Flatten(before), chunk);
    RunSnoc(max, before, chunk);
    LetGoSnoc(max, before, chunk);
    FlattenSnoc(before, chunk);
    FlattenConcat(Run(max, before).0, Feed(max, Run(max, before).1, chunk).0);
  }

  /** Whatever the stream and its chunks, oversized events and all: what the parser holds is what
      taking the events handed on leaves; and an event not handed on counts as dropped once,
      with every byte of it but those still in the buffer. */
  lemma NothingGoesUncounted(l: Limits, c: Codec, chunks: seq<Bytes>)
    requires l.event >= 3
    ensures var (kept, f) := Run(l.event, chunks);
            var (s, t, stream) := (Stored(l, c, chunks), TakeAll(l, c, EmptyStore, kept), Flatten(chunks));
            && s == t.(dropped := s.dropped, droppedBytes := s.droppedBytes)
            && s.dropped - t.dropped == |Frames(stream)| + One(f.skipping) - |kept|
            && s.droppedBytes - t.droppedBytes
               == |Flatten(Frames(stream))| + |Rest(stream)| - |Flatten(kept)| - |f.buf|
  {
    StoredIs(l, c, chunks);
    RunAccounted(l.event, chunks);
  }

  // ---- what is kept is bounded ---------------------------------------------

  /** The events the accounting needs: those with a usage, and those of these types. */
  predicate Needed(e: Event) {
    e.Object? &&
    (e.usage.Some? || e.etype in {Some("response.created"), Some("response.completed"), Some("response.incomplete"),
                                  Some("response.failed"), Some("response.done"), Some("message_start"),
                                  Some("message_delta")})
  }

  /** While there is room an event is kept, whatever it is; without, it counts as dropped, unless
      it is needed: then it is kept still, as the one of its type or beside the others, and no
      event of another type goes. A delta kept as the one of its type has the usage of both. */
  lemma PastTheLimits(l: Limits, s: Store, e: Event, size: nat)
    requires Bounded(l, s)
    ensures var s' := Keep(l, s, e, size);
            var room := |s.events| < l.events && s.stored + size <= l.stored;
            && (room ==> s' == s.(events := s.events + [e], stored := s.stored + size))
            && (!room && !Needed(e) ==>
                  s' == s.(dropped := s.dropped + 1, droppedBytes := s.droppedBytes + size))
            && (!room && Needed(e) ==>
                  && s'.dropped == s.dropped && s'.droppedBytes == s.droppedBytes && s'.stored == s.stored
                  && |s.events| <= |s'.events| <= |s.events| + 1
                  && (forall i :: 0 <= i < |s.events| && TypeOf(s.events[i]) != TypeOf(e) ==>
                        s'.events[i] == s.events[i])
                  && (exists i :: 0 <= i < |s'.events| && s'.events[i].Object?
                                   && s'.events[i] == e.(usage := s'.events[i].usage))
                  && (e.etype != Some("message_delta") ==> e in s'.events))
  {
    var s' := Keep(l, s, e, size);
    assert Accounting(e) <==> Needed(e);
    if Over(l, s, size) && Needed(e) {
      var i := if TypeOf(e) in s.slots then s.slots[TypeOf(e)] else |s.events|;
      assert s'.events[i].Object? && s'.events[i] == e.(usage := s'.events[i].usage);
    }
  }

  /** The bytes kept are within their limit; events past the limits stand in slots, one to a
      type, and whatever has a slot is an event of that type that the accounting needs. */
  ghost predicate Bounded(l: Limits, s: Store) {
    && s.stored <= l.stored
    && |s.events| <= l.events + |s.slots|
    && forall k :: k in s.slots ==>
         s.slots[k] < |s.events| && TypeOf(s.events[s.slots[k]]) == k && Accounting(s.events[s.slots[k]])
  }

  lemma NewSlot(slots: map<Option<string>, nat>, k: Option<string>, n: nat)
    requires k !in slots
    ensures |slots[k := n]| == |slots| + 1
  {
    assert slots[k := n].Keys == slots.Keys + {k};
    assert |slots[k := n].Keys| == |slots.Keys| + 1;
  }

  lemma KeepBounded(l: Limits, s: Store, e: Event, size: nat)
    requires Bounded(l, s)
    ensures Bounded(l, Keep(l, s, e, size))
  {
    if Over(l, s, size) && !Drops(l, s, e, size) && TypeOf(e) !in s.slots {
      NewSlot(s.slots, TypeOf(e), |s.events|);
    }
  }

  /** Whatever is written to the stream, what is kept of it is bounded. */
  lemma {:induction false} KeptIsBounded(l: Limits, c: Codec, raws: seq<Bytes>)
    ensures Bounded(l, TakeAll(l, c, EmptyStore, raws))
  {
    if raws != [] {
      var before := TakeAll(l, c, EmptyStore, raws[..|raws| - 1]);
      KeptIsBounded(l, c, raws[..|raws| - 1]);
      match PayloadOf(c, raws[|raws| - 1])
      case Data(text) => KeepBounded(l, before, c.parse(text), |text|);
      case _ =>
    }
  }
}
