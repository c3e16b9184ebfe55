/** eval/crazeeval/capture.py: when a Messages stream's usage survives the bounds on kept events.
    Past them each message_delta is folded into one slot (`SSEParser._event`); the usage read
    back (`usage_and_model`) is compared with that of every event. */
module UsageFolding {
  import opened Common
  import opened JsonTrees
  import opened SseParsing

  /** The running state of `usage_and_model` over a Messages stream. */
  datatype Tally = Tally(counts: Option<Counts>, started: bool, delta: bool)

  const NoTally: Tally := Tally(None, false, false)

  predicate IsStart(e: Event) { e.Object? && e.etype == Some(MESSAGE_START) }

  predicate IsDelta(e: Event) { e.Object? && e.etype == Some(MESSAGE_DELTA) }

  function TallyOne(t: Tally, e: Event): Tally {
    if IsStart(e) && e.messageUsage.Some? then Tally(MergeCounts(t.counts, e.messageUsage), true, t.delta)
    else if IsDelta(e) && e.usage.Some? then Tally(MergeCounts(t.counts, e.usage), t.started, true)
    else t
  }

  function TallyAll(es: seq<Event>): Tally {
    if es == [] then NoTally else TallyOne(TallyAll(es[..|es| - 1]), es[|es| - 1])
  }

  /** The merged counts of a stream that reported both its input and its output. */
  function StreamCounts(es: seq<Event>): Option<Counts> {
    var t := TallyAll(es);
    if t.started && t.delta then t.counts else None
  }

  /** The loop of `usage_and_model`, for a Messages stream. */
  method UsageAndModel(events: seq<Event>) returns (counts: Option<Counts>)
    ensures counts == StreamCounts(events)
  {
    counts := None;
    var started, delta := false, false;
    var i := 0;
    while i < |events|
      invariant 0 <= i <= |events|
      invariant Tally(counts, started, delta) == TallyAll(events[..i])
    {
      assert events[..i + 1][..i] == events[..i];
      var ev := events[i];
      if IsStart(ev) {
        if ev.messageUsage.Some? {
          counts, started := MergeCounts(counts, ev.messageUsage), true;
        }
      } else if IsDelta(ev) {
        if ev.usage.Some? {
          counts, delta := MergeCounts(counts, ev.usage), true;
        }
      }
      i := i + 1;
    }
    assert events[..i] == events;
    if !(started && delta) {
      counts := None;
    }
  }

  // ---- merging is an associative overlay -----------------------------------

  lemma MergeAssociative(a: Option<Counts>, b: Option<Counts>, c: Option<Counts>)
    ensures MergeCounts(MergeCounts(a, b), c) == MergeCounts(a, MergeCounts(b, c))
  {
    if b.Some? && c.Some? {
      var base := if a.Some? then a.value else map[];
      assert Reported(b.value + Reported(c.value)) == Reported(b.value) + Reported(c.value);
      assert (base + Reported(b.value)) + Reported(c.value) == base + (Reported(b.value) + Reported(c.value));
    } else if c.Some? {
      assert map[] + Reported(c.value) == Reported(c.value);
      assert Reported(Reported(c.value)) == Reported(c.value);
    }
  }

  /** A delta folded over an earlier one tallies as the two in turn. */
  lemma FoldTallies(t: Tally, kept: Event, e: Event)
    requires IsDelta(kept) && IsDelta(e)
    ensures IsDelta(Fold(kept, e))
    ensures TallyOne(t, Fold(kept, e)) == TallyOne(TallyOne(t, kept), e)
  {
    MergeAssociative(t.counts, kept.usage, e.usage);
  }

  // ---- what the counts are -------------------------------------------------

  /** Laying counts over others, count by count: one reported replaces what was there; one absent
      or null keeps it. */
  lemma MergeByCount(into: Option<Counts>, counts: Option<Counts>, k: string)
    ensures var merged := MergeCounts(into, counts);
            && (merged.None? <==> into.None? && counts.None?)
            && (counts.Some? && k in counts.value && counts.value[k] != Null ==>
                  k in merged.value && merged.value[k] == counts.value[k])
            && (merged.Some? && (counts.None? || k !in counts.value || counts.value[k] == Null) ==>
                  && (k in merged.value <==> into.Some? && k in into.value)
                  && (k in merged.value ==> merged.value[k] == into.value[k]))
  {
  }

  /** The usage an event reports: a message_start's message's, or a message_delta's own. */
  function UsageIn(e: Event): Option<Counts> {
    match e
    case NotObject => None
    case Object(etype, usage, messageUsage, _) =>
      if etype == Some("message_start") then messageUsage
      else if etype == Some("message_delta") then usage
      else None
  }

  predicate ReportsCount(e: Event, k: string) {
    UsageIn(e).Some? && k in UsageIn(e).value && UsageIn(e).value[k] != Null
  }

  /** The i-th event is the last to report the count. */
  predicate LastToReport(es: seq<Event>, i: int, k: string) {
    0 <= i < |es| && ReportsCount(es[i], k) && forall j :: i < j < |es| ==> !ReportsCount(es[j], k)
  }

  predicate StartReported(e: Event) { e.Object? && e.etype == Some("message_start") && e.messageUsage.Some? }

  predicate DeltaReported(e: Event) { e.Object? && e.etype == Some("message_delta") && e.usage.Some? }

  /** Which events there are decides whether both arrived. */
  lemma {:induction false} BothArrived(es: seq<Event>)
    ensures TallyAll(es).started <==> exists i :: 0 <= i < |es| && StartReported(es[i])
    ensures TallyAll(es).delta <==> exists i :: 0 <= i < |es| && DeltaReported(es[i])
    ensures TallyAll(es).counts.Some? <==> TallyAll(es).started || TallyAll(es).delta
  {
    if es != [] {
      var (before, e) := (es[..|es| - 1], es[|es| - 1]);
      BothArrived(before);
      assert es[|before|] == e && forall i :: 0 <= i < |before| ==> es[i] == before[i];
    }
  }

  /** A tally has a count when some event reported it, at what the last one did said. */
  ghost predicate HasLast(es: seq<Event>, t: Tally, k: string) {
    var has := t.counts.Some? && k in t.counts.value;
    && (has <==> exists i :: 0 <= i < |es| && ReportsCount(es[i], k))
    && (forall i :: LastToReport(es, i, k) && has ==> t.counts.value[k] == UsageIn(es[i]).value[k])
  }

  lemma OneMoreReport(es: seq<Event>, t: Tally, e: Event, k: string)
    requires HasLast(es, t, k)
    ensures HasLast(es + [e], TallyOne(t, e), k)
  {
    var all := es + [e];
    assert all[|es|] == e && forall i :: 0 <= i < |es| ==> all[i] == es[i];
    MergeByCount(t.counts, UsageIn(e), k);
    if ReportsCount(e, k) {
      assert ReportsCount(all[|es|], k);
    } else {
      forall i | LastToReport(all, i, k) ensures LastToReport(es, i, k) {
      }
    }
  }

  lemma {:induction false} TallyHasLast(es: seq<Event>, k: string)
    ensures HasLast(es, TallyAll(es), k)
  {
    if es != [] {
      var (before, e) := (es[..|es| - 1], es[|es| - 1]);
      var t := TallyAll(before);
      assert es == before + [e] && TallyAll(es) == TallyOne(t, e);
      TallyHasLast(before, k);
      OneMoreReport(before, t, e, k);
    }
  }

  /** The usage of a stream: there is one when a start and a delta reported; and each count is
      what the last event to report it said, an absent or null count reporting nothing. */
  lemma CountsAreLast(es: seq<Event>, k: string)
    ensures var c := StreamCounts(es);
            && (c.Some? <==> (exists i :: 0 <= i < |es| && StartReported(es[i]))
                             && (exists i :: 0 <= i < |es| && DeltaReported(es[i])))
            && (c.Some? ==>
                  && (k in c.value <==> exists i :: 0 <= i < |es| && ReportsCount(es[i], k))
                  && forall i :: LastToReport(es, i, k) && k in c.value ==> c.value[k] == UsageIn(es[i]).value[k])
  {
    BothArrived(es);
    TallyHasLast(es, k);
  }

  // ---- streams -------------------------------------------------------------

  datatype Sized = Sized(event: Event, size: nat)

  function EventsOf(es: seq<Sized>): (r: seq<Event>)
    ensures |r| == |es|
  {
    seq(|es|, i requires 0 <= i < |es| => es[i].event)
  }

  function SizeOf(es: seq<Sized>): nat {
    if es == [] then 0 else SizeOf(es[..|es| - 1]) + es[|es| - 1].size
  }

  function KeepAll(l: Limits, es: seq<Sized>): Store {
    if es == [] then EmptyStore
    else Keep(l, KeepAll(l, es[..|es| - 1]), es[|es| - 1].event, es[|es| - 1].size)
  }

  predicate AnyStart(es: seq<Sized>) { es != [] && (AnyStart(es[..|es| - 1]) || IsStart(es[|es| - 1].event)) }

  predicate AnyDelta(es: seq<Sized>) { es != [] && (AnyDelta(es[..|es| - 1]) || IsDelta(es[|es| - 1].event)) }

  /** An event of a Messages stream: its start, a delta, or one without usage. */
  predicate MessagesEvent(e: Event) { IsStart(e) || IsDelta(e) || !Accounting(e) }

  /** One message_start, before any message_delta; any deltas; and events without usage of
      other types, anywhere. */
  predicate MessagesStream(es: seq<Sized>) {
    es == [] ||
    var (before, e) := (es[..|es| - 1], es[|es| - 1].event);
    MessagesStream(before) && MessagesEvent(e) && (IsStart(e) ==> !AnyStart(before) && !AnyDelta(before))
  }

  const DELTA_SLOT: Option<string> := Some(MESSAGE_DELTA)

  /** A delta was kept behind the slot that later ones are folded into. */
  predicate DeltaBehindSlot(s: Store) {
    DELTA_SLOT in s.slots && exists q :: s.slots[DELTA_SLOT] < q < |s.events| && IsDelta(s.events[q])
  }

  /** Whenever a delta is past a limit, no delta is kept behind its slot. */
  predicate FoldsInOrder(l: Limits, es: seq<Sized>) {
    es == [] ||
    var (before, x) := (es[..|es| - 1], es[|es| - 1]);
    && FoldsInOrder(l, before)
    && (IsDelta(x.event) && Over(l, KeepAll(l, before), x.size) ==> !DeltaBehindSlot(KeepAll(l, before)))
  }

  /** The slot of the deltas holds one, and no start stands behind it. */
  predicate SlotIsDelta(s: Store) {
    DELTA_SLOT in s.slots ==>
      && s.slots[DELTA_SLOT] < |s.events|
      && IsDelta(s.events[s.slots[DELTA_SLOT]])
      && forall q :: s.slots[DELTA_SLOT] < q < |s.events| ==> !IsStart(s.events[q])
  }

  /** The slots a store has once a start, or a delta, was seen. */
  predicate SlotsOf(s: Store, started: bool, delta: bool) {
    && SlotIsDelta(s)
    && (Some(MESSAGE_START) in s.slots ==> started)
    && (DELTA_SLOT in s.slots ==> delta)
  }

  lemma KeepSlots(l: Limits, s: Store, e: Event, size: nat, started: bool, delta: bool)
    requires SlotsOf(s, started, delta) && MessagesEvent(e)
    requires IsStart(e) ==> !started && !delta
    ensures SlotsOf(Keep(l, s, e, size), started || IsStart(e), delta || IsDelta(e))
  {
  }

  lemma {:induction false} KeepAllSlots(l: Limits, es: seq<Sized>)
    requires MessagesStream(es)
    ensures SlotsOf(KeepAll(l, es), AnyStart(es), AnyDelta(es))
  {
    if es != [] {
      var (before, x) := (es[..|es| - 1], es[|es| - 1]);
      KeepAllSlots(l, before);
      KeepSlots(l, KeepAll(l, before), x.event, x.size, AnyStart(before), AnyDelta(before));
    }
  }

  lemma TallyAppend(es: seq<Event>, e: Event)
    ensures TallyAll(es + [e]) == TallyOne(TallyAll(es), e)
  {
    assert (es + [e])[..|es|] == es;
  }

  /** Events that are neither starts nor deltas do not tally. */
  lemma {:induction false} TallyPrefix(es: seq<Event>, n: nat)
    requires n <= |es| && forall q :: n <= q < |es| ==> !IsStart(es[q]) && !IsDelta(es[q])
    ensures TallyAll(es) == TallyAll(es[..n])
  {
    if n == |es| {
      assert es[..n] == es;
    } else {
      var before := es[..|es| - 1];
      TallyPrefix(before, n);
      assert before[..n] == es[..n];
    }
  }

  lemma TallyAt(es: seq<Event>, d: nat)
    requires d < |es| && forall q :: d < q < |es| ==> !IsStart(es[q]) && !IsDelta(es[q])
    ensures TallyAll(es) == TallyOne(TallyAll(es[..d]), es[d])
  {
    TallyPrefix(es, d + 1);
    assert es[..d + 1] == es[..d] + [es[d]];
    TallyAppend(es[..d], es[d]);
  }

  /** Folding into the last delta kept tallies as one more delta. */
  lemma FoldTalliesInPlace(es: seq<Event>, d: nat, e: Event)
    requires d < |es| && IsDelta(es[d]) && IsDelta(e)
    requires forall q :: d < q < |es| ==> !IsStart(es[q]) && !IsDelta(es[q])
    ensures TallyAll(es[d := Fold(es[d], e)]) == TallyOne(TallyAll(es), e)
  {
    var f := Fold(es[d], e);
    var folded := es[d := f];
    TallyAt(es, d);
    TallyAt(folded, d);
    assert folded[..d] == es[..d] && folded[d] == f;
    FoldTallies(TallyAll(es[..d]), es[d], e);
  }

  /** Keeping one event tallies it, wherever it goes. */
  lemma KeepTallies(l: Limits, s: Store, e: Event, size: nat)
    requires SlotIsDelta(s) && MessagesEvent(e)
    requires IsStart(e) ==> Some(MESSAGE_START) !in s.slots
    requires IsDelta(e) && Over(l, s, size) ==> !DeltaBehindSlot(s)
    ensures TallyAll(Keep(l, s, e, size).events) == TallyOne(TallyAll(s.events), e)
  {
    TallyAppend(s.events, e);
    if Over(l, s, size) && IsDelta(e) && DELTA_SLOT in s.slots {
      FoldTalliesInPlace(s.events, s.slots[DELTA_SLOT], e);
    }
  }

  lemma {:induction false} KeepAllTallies(l: Limits, es: seq<Sized>)
    requires MessagesStream(es) && FoldsInOrder(l, es)
    ensures TallyAll(KeepAll(l, es).events) == TallyAll(EventsOf(es))
  {
    if es != [] {
      var (before, x) := (es[..|es| - 1], es[|es| - 1]);
      KeepAllTallies(l, before);
      KeepAllSlots(l, before);
      KeepTallies(l, KeepAll(l, before), x.event, x.size);
      assert EventsOf(es) == EventsOf(before) + [x.event];
      TallyAppend(EventsOf(before), x.event);
    }
  }

  /** Folding the deltas past a limit into one slot yields the usage of keeping every event, as
      long as none is folded after one behind the slot was kept. */
  lemma FoldingKeepsUsage(l: Limits, es: seq<Sized>)
    requires MessagesStream(es) && FoldsInOrder(l, es)
    ensures StreamCounts(KeepAll(l, es).events) == StreamCounts(EventsOf(es))
  {
    KeepAllTallies(l, es);
  }

  // ---- the event-count limit -----------------------------------------------

  /** While the byte limit is not reached, a slot is the last of as many events as may be kept. */
  ghost predicate SlotLast(l: Limits, s: Store) {
    DELTA_SLOT in s.slots ==> s.slots[DELTA_SLOT] == |s.events| - 1 && |s.events| >= l.events
  }

  lemma KeepSlotLast(l: Limits, s: Store, e: Event, size: nat, started: bool, delta: bool)
    requires SlotsOf(s, started, delta) && MessagesEvent(e) && SlotLast(l, s) && s.stored + size <= l.stored
    requires IsStart(e) ==> !started && !delta
    ensures SlotLast(l, Keep(l, s, e, size)) && Keep(l, s, e, size).stored <= s.stored + size
  {
  }

  /** Past the event-count limit alone every fold is in order. */
  lemma {:induction false} CountLimitInOrder(l: Limits, es: seq<Sized>)
    requires MessagesStream(es) && SizeOf(es) <= l.stored
    ensures FoldsInOrder(l, es) && SlotLast(l, KeepAll(l, es)) && KeepAll(l, es).stored <= SizeOf(es)
  {
    if es != [] {
      var (before, x) := (es[..|es| - 1], es[|es| - 1]);
      CountLimitInOrder(l, before);
      KeepAllSlots(l, before);
      KeepSlotLast(l, KeepAll(l, before), x.event, x.size, AnyStart(before), AnyDelta(before));
    }
  }

  // ---- when the usage is lost ----------------------------------------------

  /** The same stream, whatever its deltas report. */
  predicate SameButUsage(es: seq<Sized>, fs: seq<Sized>) {
    |es| == |fs| &&
    forall i :: 0 <= i < |es| ==>
      && es[i].size == fs[i].size
      && (if IsDelta(es[i].event) then IsDelta(fs[i].event) else fs[i].event == es[i].event)
  }

  /** The parser's reading is the stream's, whatever its deltas report. */
  ghost predicate UsageSurvives(l: Limits, es: seq<Sized>) {
    forall fs :: SameButUsage(es, fs) ==> StreamCounts(KeepAll(l, fs).events) == StreamCounts(EventsOf(fs))
  }

  predicate SameKinds(es: seq<Event>, fs: seq<Event>) {
    |es| == |fs| &&
    forall i :: 0 <= i < |es| ==> (IsDelta(es[i]) <==> IsDelta(fs[i])) && (IsStart(es[i]) <==> IsStart(fs[i]))
  }

  lemma ButLast(es: seq<Sized>, fs: seq<Sized>)
    requires SameButUsage(es, fs) && es != []
    ensures SameButUsage(es[..|es| - 1], fs[..|fs| - 1])
  {
  }

  /** What the deltas report decides nothing about what is kept where. */
  lemma {:induction false} SameKept(l: Limits, es: seq<Sized>, fs: seq<Sized>)
    requires SameButUsage(es, fs) && MessagesStream(es)
    ensures MessagesStream(fs) && AnyStart(fs) == AnyStart(es) && AnyDelta(fs) == AnyDelta(es)
    ensures var (s, t) := (KeepAll(l, es), KeepAll(l, fs));
            s.stored == t.stored && s.slots == t.slots && SameKinds(s.events, t.events)
    ensures FoldsInOrder(l, fs) <==> FoldsInOrder(l, es)
  {
    if es != [] {
      ButLast(es, fs);
      var (before, x, y) := (es[..|es| - 1], es[|es| - 1], fs[|fs| - 1]);
      SameKept(l, before, fs[..|fs| - 1]);
      KeepAllSlots(l, before);
      KeepSameKinds(l, KeepAll(l, before), KeepAll(l, fs[..|fs| - 1]), x, y);
    }
  }

  lemma KeepSameKinds(l: Limits, s: Store, t: Store, x: Sized, y: Sized)
    requires s.stored == t.stored && s.slots == t.slots && SameKinds(s.events, t.events) && SlotIsDelta(s)
    requires x.size == y.size && MessagesEvent(x.event)
    requires if IsDelta(x.event) then IsDelta(y.event) else y.event == x.event
    ensures var (s', t') := (Keep(l, s, x.event, x.size), Keep(l, t, y.event, y.size));
            s'.stored == t'.stored && s'.slots == t'.slots && SameKinds(s'.events, t'.events)
    ensures DeltaBehindSlot(s) <==> DeltaBehindSlot(t)
  {
    assert TypeOf(x.event) == TypeOf(y.event);
    if Over(l, s, x.size) && Accounting(x.event) && TypeOf(x.event) in s.slots {
      FoldSameKinds(s.events, t.events, s.slots[TypeOf(x.event)], x.event, y.event);
    }
  }

  lemma FoldSameKinds(es: seq<Event>, fs: seq<Event>, d: nat, e: Event, f: Event)
    requires SameKinds(es, fs) && (IsDelta(e) <==> IsDelta(f)) && (IsStart(e) <==> IsStart(f))
    ensures d < |es| ==> SameKinds(es[d := Fold(es[d], e)], fs[d := Fold(fs[d], f)])
  {
  }

  /** A delta that reports nothing. */
  const QUIET: Event := Object(DELTA_SLOT, None, None, [])

  /** A delta reporting n output tokens. */
  function Delta(n: int): Event { Object(Some(MESSAGE_DELTA), Some(Out(n)), None, []) }

  function Out(n: int): Counts { map["output_tokens" := Int(n)] }

  lemma OutOverwrites(m: int, n: int)
    ensures MergeCounts(Some(Out(m)), Some(Out(n))) == Some(Out(n))
    ensures MergeCounts(Some(map[]), Some(Out(n))) == Some(Out(n))
    ensures MergeCounts(None, Some(map[])) == Some(map[])
  {
    var none: Counts := map[];
    assert Reported(none) == none && none + none == none;
    assert Reported(Out(n)) == Out(n);
    assert Out(m) + Out(n) == Out(n) && none + Out(n) == Out(n);
  }

  /** The same stream with 2 reported before its k-th event, 3 by it and nothing after it. */
  function Reporting(es: seq<Sized>, k: nat): (fs: seq<Sized>)
    ensures SameButUsage(es, fs)
  {
    seq(|es|, i requires 0 <= i < |es| =>
      if !IsDelta(es[i].event) then es[i]
      else Sized(if i < k then Delta(2) else if i == k then Delta(3) else QUIET, es[i].size))
  }

  /** The p-th event reports n, and no later one anything else. */
  predicate Reports(es: seq<Event>, p: nat, n: int) {
    && p < |es| && IsDelta(es[p]) && es[p].usage == Some(Out(n))
    && forall q :: p < q < |es| ==>
         !IsStart(es[q]) && (IsDelta(es[q]) ==> es[q].usage.None? || es[q].usage == Some(Out(n)))
  }

  predicate Counted(t: Tally, n: int) {
    t.delta && t.counts.Some? && "output_tokens" in t.counts.value && t.counts.value["output_tokens"] == Int(n)
  }

  lemma {:induction false} ReportCounts(es: seq<Event>, p: nat, n: int)
    requires Reports(es, p, n)
    ensures Counted(TallyAll(es), n)
    decreases |es|
  {
    OutOverwrites(n, n);
    var before := es[..|es| - 1];
    if p < |before| {
      ReportCounts(before, p, n);
    }
  }

  /** Every delta kept reports 2. */
  predicate AllTwo(es: seq<Event>) {
    forall q :: 0 <= q < |es| && IsDelta(es[q]) ==> es[q].usage == Some(Out(2))
  }

  lemma {:induction false} TwoKept(l: Limits, es: seq<Sized>)
    requires forall i :: 0 <= i < |es| && IsDelta(es[i].event) ==> es[i].event == Delta(2)
    requires MessagesStream(es)
    ensures AllTwo(KeepAll(l, es).events)
  {
    if es != [] {
      TwoKept(l, es[..|es| - 1]);
      KeepAllSlots(l, es[..|es| - 1]);
      OutOverwrites(2, 2);
    }
  }

  lemma {:induction false} NoStartAfter(es: seq<Sized>, k: nat)
    requires MessagesStream(es) && k < |es| && IsDelta(es[k].event)
    ensures AnyDelta(es) && forall q :: k < q < |es| ==> !IsStart(es[q].event)
    decreases |es|
  {
    if k < |es| - 1 {
      NoStartAfter(es[..|es| - 1], k);
    }
  }

  /** The p-th event kept, behind the slot, is the last to report anything: 2. */
  predicate StaleAt(s: Store, p: nat) {
    DELTA_SLOT in s.slots && s.slots[DELTA_SLOT] < p && Reports(s.events, p, 2)
  }

  lemma StaleStays(l: Limits, s: Store, e: Event, size: nat, p: nat)
    requires StaleAt(s, p) && MessagesEvent(e) && !IsStart(e) && (IsDelta(e) ==> e == QUIET)
    ensures StaleAt(Keep(l, s, e, size), p)
  {
  }

  lemma TurnsStale(l: Limits, s: Store, size: nat) returns (p: nat)
    requires SlotIsDelta(s) && AllTwo(s.events) && Over(l, s, size) && DeltaBehindSlot(s)
    ensures StaleAt(Keep(l, s, Delta(3), size), p)
  {
    p :| s.slots[DELTA_SLOT] < p < |s.events| && IsDelta(s.events[p]);
  }

  /** The k-th event is a delta folded although one is kept behind its slot. */
  predicate FoldsBehind(l: Limits, es: seq<Sized>, k: nat)
    requires k < |es|
  {
    IsDelta(es[k].event) && Over(l, KeepAll(l, es[..k]), es[k].size) && DeltaBehindSlot(KeepAll(l, es[..k]))
  }

  /** The fold that goes wrong. */
  lemma StaleAfter(l: Limits, es: seq<Sized>) returns (p: nat)
    requires MessagesStream(es) && es != [] && FoldsBehind(l, es, |es| - 1)
    ensures StaleAt(KeepAll(l, Reporting(es, |es| - 1)), p)
  {
    var k := |es| - 1;
    var fs := Reporting(es, k);
    ButLast(es, fs);
    SameKept(l, es[..k], fs[..k]);
    KeepAllSlots(l, fs[..k]);
    TwoKept(l, fs[..k]);
    KeepSameKinds(l, KeepAll(l, es[..k]), KeepAll(l, fs[..k]), es[k], fs[k]);
    p := TurnsStale(l, KeepAll(l, fs[..k]), es[k].size);
  }

  lemma ReportingEarlier(l: Limits, es: seq<Sized>, k: nat)
    requires k < |es| - 1
    ensures Reporting(es, k)[..|es| - 1] == Reporting(es[..|es| - 1], k)
    ensures FoldsBehind(l, es, k) ==> FoldsBehind(l, es[..|es| - 1], k)
  {
    assert es[..|es| - 1][..k] == es[..k];
  }

  lemma {:induction false} StaleToTheEnd(l: Limits, es: seq<Sized>, k: nat) returns (p: nat)
    requires MessagesStream(es) && k < |es| && FoldsBehind(l, es, k)
    ensures StaleAt(KeepAll(l, Reporting(es, k)), p)
    decreases |es|
  {
    if k == |es| - 1 {
      p := StaleAfter(l, es);
    } else {
      ReportingEarlier(l, es, k);
      p := StaleToTheEnd(l, es[..|es| - 1], k);
      NoStartAfter(es, k);
      var fs := Reporting(es, k);
      StaleStays(l, KeepAll(l, fs[..|es| - 1]), fs[|es| - 1].event, es[|es| - 1].size, p);
    }
  }

  lemma {:induction false} SomeFoldsBehind(l: Limits, es: seq<Sized>) returns (k: nat)
    requires !FoldsInOrder(l, es)
    ensures k < |es| && FoldsBehind(l, es, k)
  {
    var before := es[..|es| - 1];
    if FoldsInOrder(l, before) {
      k := |es| - 1;
    } else {
      k := SomeFoldsBehind(l, before);
      assert before[..k] == es[..k];
    }
  }

  lemma UsageLost(l: Limits, es: seq<Sized>) returns (fs: seq<Sized>)
    requires MessagesStream(es) && !FoldsInOrder(l, es) && TallyAll(EventsOf(es)).started
    ensures SameButUsage(es, fs) && StreamCounts(KeepAll(l, fs).events) != StreamCounts(EventsOf(fs))
  {
    var k := SomeFoldsBehind(l, es);
    fs := Reporting(es, k);
    var p := StaleToTheEnd(l, es, k);
    ReportCounts(KeepAll(l, fs).events, p, 2);
    NoStartAfter(es, k);
    ReportCounts(EventsOf(fs), k, 3);
    SameStarted(EventsOf(es), EventsOf(fs));
  }

  /** Whether a start's usage came does not hang on the deltas. */
  lemma {:induction false} SameStarted(es: seq<Event>, fs: seq<Event>)
    requires |es| == |fs|
    requires forall i :: 0 <= i < |es| ==> if IsDelta(es[i]) then IsDelta(fs[i]) else fs[i] == es[i]
    ensures TallyAll(es).started == TallyAll(fs).started
  {
    if es != [] {
      SameStarted(es[..|es| - 1], fs[..|fs| - 1]);
    }
  }

  lemma KeepStarted(l: Limits, s: Store, e: Event, size: nat)
    requires SlotIsDelta(s) && MessagesEvent(e) && (IsStart(e) ==> Some(MESSAGE_START) !in s.slots)
    ensures TallyAll(Keep(l, s, e, size).events).started == TallyOne(TallyAll(s.events), e).started
  {
    TallyAppend(s.events, e);
    if Over(l, s, size) && IsDelta(e) && DELTA_SLOT in s.slots {
      SameStarted(s.events, Keep(l, s, e, size).events);
    }
  }

  lemma {:induction false} KeptStarted(l: Limits, es: seq<Sized>)
    requires MessagesStream(es)
    ensures TallyAll(KeepAll(l, es).events).started == TallyAll(EventsOf(es)).started
  {
    if es != [] {
      var (before, x) := (es[..|es| - 1], es[|es| - 1]);
      KeptStarted(l, before);
      KeepAllSlots(l, before);
      assert EventsOf(es) == EventsOf(before) + [x.event];
      TallyAppend(EventsOf(before), x.event);
      KeepStarted(l, KeepAll(l, before), x.event, x.size);
    }
  }

  /** For which streams the parser's reading is that of every event, whatever the deltas report:
      those whose start never reported, and those in which no delta past a limit is folded
      while another is kept behind the slot. */
  lemma FoldingKeepsUsageIff(l: Limits, es: seq<Sized>)
    requires MessagesStream(es)
    ensures UsageSurvives(l, es) <==> (TallyAll(EventsOf(es)).started ==> FoldsInOrder(l, es))
  {
    if !TallyAll(EventsOf(es)).started || FoldsInOrder(l, es) {
      forall fs | SameButUsage(es, fs) ensures StreamCounts(KeepAll(l, fs).events) == StreamCounts(EventsOf(fs)) {
        SameKept(l, es, fs);
        KeptStarted(l, fs);
        SameStarted(EventsOf(es), EventsOf(fs));
        if FoldsInOrder(l, fs) {
          FoldingKeepsUsage(l, fs);
        }
      }
    } else {
      var fs := UsageLost(l, es);
      assert SameButUsage(es, fs);
    }
  }

  // ---- under the byte limit ------------------------------------------------

  const MESSAGE: Event := Object(Some(MESSAGE_START), None, Some(map[]), [])

  lemma DeltaTally(n: int)
    ensures IsDelta(Delta(n)) && !IsStart(Delta(n)) && IsStart(MESSAGE) && !IsDelta(MESSAGE)
    ensures forall m :: TallyOne(Tally(Some(Out(m)), true, true), Delta(n)) == Tally(Some(Out(n)), true, true)
    ensures TallyOne(Tally(Some(map[]), true, false), Delta(n)) == Tally(Some(Out(n)), true, true)
    ensures TallyOne(NoTally, MESSAGE) == Tally(Some(map[]), true, false)
  {
    forall m ensures TallyOne(Tally(Some(Out(m)), true, true), Delta(n)) == Tally(Some(Out(n)), true, true) {
      OutOverwrites(m, n);
    }
    OutOverwrites(0, n);
  }

  /** After its start a stream reports its last delta. */
  lemma LastDelta(es: seq<Event>, m: int, n: int)
    requires TallyAll(es) == Tally(Some(map[]), true, false) || TallyAll(es) == Tally(Some(Out(m)), true, true)
    ensures TallyAll(es + [Delta(n)]) == Tally(Some(Out(n)), true, true)
  {
    TallyAppend(es, Delta(n));
    DeltaTally(n);
  }

  lemma StartTally()
    ensures TallyAll([MESSAGE]) == Tally(Some(map[]), true, false)
  {
    TallyAppend([], MESSAGE);
    assert [] + [MESSAGE] == [MESSAGE];
    DeltaTally(0);
  }

  const BYTES: Limits := Limits(100, 100, 1)

  /** What is kept of a start and the deltas 1, 2 and 3, all but 2 past the byte limit. */
  lemma KeptBySize()
    ensures var s1 := Keep(BYTES, EmptyStore, MESSAGE, 0);
            var s2 := Keep(BYTES, s1, Delta(1), 2);
            var s3 := Keep(BYTES, s2, Delta(2), 1);
            Keep(BYTES, s3, Delta(3), 2).events == [MESSAGE, Delta(3), Delta(2)]
  {
    DeltaTally(1);
    OutOverwrites(1, 3);
    assert Fold(Delta(1), Delta(3)) == Delta(3);
    assert [MESSAGE] + [Delta(1)] + [Delta(2)] == [MESSAGE, Delta(1), Delta(2)];
    assert [MESSAGE, Delta(1), Delta(2)][1 := Delta(3)] == [MESSAGE, Delta(3), Delta(2)];
  }

  /** The byte limit is another matter: past it a small delta is stored as usual again, behind
      the slot that a later one is folded into. Of the deltas 1, 2 and 3, the second small, the
      kept events say 2 and the stream 3. */
  lemma ByteLimitLosesUsage(es: seq<Sized>)
    requires es == [Sized(MESSAGE, 0), Sized(Delta(1), 2), Sized(Delta(2), 1), Sized(Delta(3), 2)]
    ensures MessagesStream(es)
    ensures StreamCounts(KeepAll(BYTES, es).events) == Some(Out(2)) && StreamCounts(EventsOf(es)) == Some(Out(3))
  {
    StartTally();
    LastDelta([MESSAGE], 0, 1);
    LastDelta([MESSAGE] + [Delta(1)], 1, 2);
    LastDelta([MESSAGE] + [Delta(1)] + [Delta(2)], 2, 3);
    assert EventsOf(es) == [MESSAGE] + [Delta(1)] + [Delta(2)] + [Delta(3)];
    LastDelta([MESSAGE], 0, 3);
    LastDelta([MESSAGE] + [Delta(3)], 3, 2);
    assert [MESSAGE, Delta(3), Delta(2)] == [MESSAGE] + [Delta(3)] + [Delta(2)];
    KeptBySize();
    Unrolled(es);
  }

  lemma Unrolled(es: seq<Sized>)
    requires es == [Sized(MESSAGE, 0), Sized(Delta(1), 2), Sized(Delta(2), 1), Sized(Delta(3), 2)]
    ensures MessagesStream(es)
    ensures KeepAll(BYTES, es) == Keep(BYTES, Keep(BYTES, Keep(BYTES, Keep(BYTES, EmptyStore, MESSAGE, 0),
                                                                Delta(1), 2), Delta(2), 1), Delta(3), 2)
  {
    var (e1, e2, e3) := (es[..1], es[..2], es[..3]);
    assert es[..3][..2] == e2 && es[..2][..1] == e1 && es[..1][..0] == [];
    assert KeepAll(BYTES, e1) == Keep(BYTES, EmptyStore, MESSAGE, 0) && MessagesStream(e1);
    assert KeepAll(BYTES, e2) == Keep(BYTES, KeepAll(BYTES, e1), Delta(1), 2) && MessagesStream(e2);
    assert KeepAll(BYTES, e3) == Keep(BYTES, KeepAll(BYTES, e2), Delta(2), 1) && MessagesStream(e3);
  }
}
