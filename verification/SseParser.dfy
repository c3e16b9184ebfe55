/** eval/crazeeval/capture.py: `SSEParser`, and the usage a Messages stream reports. */
module SseParsing {
  import opened Common
  import opened ByteStrings
  import opened SseFraming
  import opened JsonTrees

  // ---- events --------------------------------------------------------------

  /** A Messages usage object: its counts by name; a count may be null. */
  type Counts = map<string, Json>

  /** What the parser and the accounting read of an event's parsed data. `messageUsage` is
      the usage inside a message_start's message; a usage is an object, or absent or null. */
  datatype Event =
    | NotObject
    | Object(etype: Option<string>, usage: Option<Counts>, messageUsage: Option<Counts>, rest: Bytes)

  const ACCOUNTING_TYPES: set<string> :=
    {"response.created", "response.completed", "response.incomplete", "response.failed", "response.done",
     "message_start", "message_delta"}

  const MESSAGE_START: string := "message_start"
  const MESSAGE_DELTA: string := "message_delta"

  /** `_accounting` */
  predicate Accounting(e: Event) {
    e.Object? && (e.usage.Some? || (e.etype.Some? && e.etype.value in ACCOUNTING_TYPES))
  }

  /** `merge_counts`: the reported counts laid over the earlier ones; a null one keeps what
      was there. */
  function MergeCounts(into: Option<Counts>, counts: Option<Counts>): Option<Counts> {
    if counts.None? then into
    else Some((if into.Some? then into.value else map[]) + Reported(counts.value))
  }

  /** The counts that are not null. */
  function Reported(c: Counts): Counts { map k | k in c && !c[k].Null? :: c[k] }

  // ---- what is kept --------------------------------------------------------

  /** `dropped`, `droppedBytes`: the events let go, and how much of them. */
  datatype Store = Store(events: seq<Event>, done: bool, stored: nat, slots: map<Option<string>, nat>,
                         dropped: nat, droppedBytes: nat)

  const EmptyStore: Store := Store([], false, 0, map[], 0, 0)

  function Drop(s: Store, events: nat, bytes: nat): Store {
    s.(dropped := s.dropped + events, droppedBytes := s.droppedBytes + bytes)
  }

  datatype Limits = Limits(events: nat, event: nat, stored: nat)

  predicate Over(l: Limits, s: Store, size: nat) { |s.events| >= l.events || s.stored + size > l.stored }

  /** Whether an event of `size` bytes is dropped. */
  predicate Drops(l: Limits, s: Store, e: Event, size: nat) { Over(l, s, size) && !Accounting(e) }

  function UsageOf(e: Event): Option<Counts> { if e.Object? then e.usage else None }

  /** A later delta folded over the one already kept. */
  function Fold(kept: Event, e: Event): Event {
    if e.Object? && e.etype == Some(MESSAGE_DELTA)
    then e.(usage := MergeCounts(UsageOf(kept), e.usage)) else e
  }

  function TypeOf(e: Event): Option<string> { if e.Object? then e.etype else None }

  /** The tail of `_event`: keep the event, drop it, or put it in its type's slot. */
  function Keep(l: Limits, s: Store, e: Event, size: nat): Store {
    if Drops(l, s, e, size) then Drop(s, 1, size)
    else if Over(l, s, size) then
      var key := TypeOf(e);
      if key in s.slots && s.slots[key] < |s.events|
      then s.(events := s.events[s.slots[key] := Fold(s.events[s.slots[key]], e)])
      else s.(events := s.events + [e], slots := s.slots[key := |s.events|])
    else s.(events := s.events + [e], stored := s.stored + size)
  }

  // ---- an event's text -----------------------------------------------------

  predicate DataLine(line: Bytes) { |line| >= 5 && line[..5] == "data:" }

  /** A data line's value: what follows the colon, less one leading space. */
  function DataValue(line: Bytes): Bytes
    requires DataLine(line)
  {
    if |line| > 5 && line[5] == ' ' then line[6..] else line[5..]
  }

  function DataValues(lines: seq<Bytes>): seq<Bytes> {
    if lines == [] then []
    else DataValues(lines[..|lines| - 1])
         + (if DataLine(lines[|lines| - 1]) then [DataValue(lines[|lines| - 1])] else [])
  }

  predicate LineEnd(c: char) { c == '\n' || c == '\r' }

  /** `raw.splitlines()`: LF, CR LF and CR end a line. */
  function SplitLines(raw: Bytes): seq<Bytes> { SplitFrom(raw, 0) }

  function SplitFrom(raw: Bytes, at: nat): seq<Bytes>
    requires at <= |raw|
    decreases |raw|, |raw| - at
  {
    if at == |raw| then (if raw == [] then [] else [raw])
    else if LineEnd(raw[at]) then
      var skip := if raw[at] == '\r' && at + 1 < |raw| && raw[at + 1] == '\n' then 2 else 1;
      [raw[..at]] + SplitFrom(raw[at + skip..], 0)
    else SplitFrom(raw, at + 1)
  }

  function Join(parts: seq<Bytes>): Bytes {
    if parts == [] then []
    else if |parts| == 1 then parts[0]
    else Join(parts[..|parts| - 1]) + "\n" + parts[|parts| - 1]
  }

  /** What `strip` takes off bytes. */
  predicate ByteSpace(c: char) { c == ' ' || 9 <= c as int <= 13 }

  /** What `strip` takes off text: Unicode's white space. */
  predicate TextSpace(c: char) {
    var n := c as int;
    || ByteSpace(c) || 28 <= n <= 31 || n == 0x85 || n == 0xa0 || n == 0x1680 || 0x2000 <= n <= 0x200a
    || n == 0x2028 || n == 0x2029 || n == 0x202f || n == 0x205f || n == 0x3000
  }

  function StripLeft(s: string, space: char -> bool): string {
    if s != [] && space(s[0]) then StripLeft(s[1..], space) else s
  }

  function Strip(s: string, space: char -> bool): string {
    if s != [] && space(s[|s| - 1]) then Strip(s[..|s| - 1], space) else StripLeft(s, space)
  }

  /** What an event's lines amount to: nothing, the end mark, or data. */
  datatype Payload = Nothing | Done | Data(text: string)

  /** UTF-8 decoding, and the JSON parser together with the wrapping of what it refuses. */
  datatype Codec = Codec(decode: Bytes -> string, parse: string -> Event)

  function PayloadOf(c: Codec, raw: Bytes): Payload {
    var values := DataValues(SplitLines(raw));
    if values == [] then Nothing
    else
      var data := c.decode(Join(values));
      if Strip(data, TextSpace) == "[DONE]" then Done else Data(data)
  }

  /** `_event` */
  function Take(l: Limits, c: Codec, s: Store, raw: Bytes): Store {
    match PayloadOf(c, raw)
    case Nothing => s
    case Done => s.(done := true)
    case Data(text) => Keep(l, s, c.parse(text), |text|)
  }

  function TakeAll(l: Limits, c: Codec, s: Store, raws: seq<Bytes>): Store {
    if raws == [] then s else Take(l, c, TakeAll(l, c, s, raws[..|raws| - 1]), raws[|raws| - 1])
  }

  lemma {:induction false} TakeAllConcat(l: Limits, c: Codec, s: Store, a: seq<Bytes>, b: seq<Bytes>)
    ensures TakeAll(l, c, s, a + b) == TakeAll(l, c, TakeAll(l, c, s, a), b)
    decreases |b|
  {
    if b == [] {
      assert a + b == a;
    } else {
      assert (a + b)[..|a + b| - 1] == a + b[..|b| - 1];
      TakeAllConcat(l, c, s, a, b[..|b| - 1]);
    }
  }

  // ---- one feed ------------------------------------------------------------

  /** The end of the event that was being skipped, if it comes: it counts as dropped bytes. */
  function SkippedEnd(f: Framing, frames: seq<Bytes>): nat { if f.skipping && frames != [] then |frames[0]| else 0 }

  /** What an oversized rest lets go: all but its last three bytes, and one more event unless it
      was being skipped already. */
  function CutOff(l: Limits, s: Store, skipping: bool, rest: Bytes): Store {
    if |rest| > l.event && |rest| >= 3 then Drop(s, if skipping then 0 else 1, |rest| - 3) else s
  }

  /** The store after one `feed`. */
  function FeedStore(l: Limits, c: Codec, f: Framing, s: Store, chunk: Bytes): Store {
    var (frames, rest) := (Frames(f.buf + chunk), Rest(f.buf + chunk));
    var taken := TakeAll(l, c, Drop(s, 0, SkippedEnd(f, frames)), Handed(f.skipping, frames));
    CutOff(l, taken, f.skipping && frames == [], rest)
  }

  // ---- the class -----------------------------------------------------------

  class SseParser {
    const limits: Limits
    const codec: Codec
    var buf: Bytes
    var skipping: bool
    var events: seq<Event>
    var done: bool
    var stored: nat
    var slots: map<Option<string>, nat>
    var dropped: nat
    var droppedBytes: nat

    ghost function TheFraming(): Framing reads this { Framing(buf, skipping) }

    ghost function TheStore(): Store reads this { Store(events, done, stored, slots, dropped, droppedBytes) }

    /** Between calls the buffer holds no separator: `feed` took them all. */
    ghost predicate Valid() reads this { Search(buf, 0).None? }

    constructor (limits: Limits, codec: Codec)
      ensures this.limits == limits && this.codec == codec
      ensures Valid() && TheFraming() == Framing([], false) && TheStore() == EmptyStore
    {
      this.limits := limits;
      this.codec := codec;
      buf, skipping := [], false;
      events, done, stored, slots := [], false, 0, map[];
      dropped, droppedBytes := 0, 0;
    }

    method Feed(chunk: Bytes)
      requires Valid() && limits.event >= 3
      modifies this
      ensures Valid()
      ensures TheFraming() == SseFraming.Feed(limits.event, old(TheFraming()), chunk).1
      ensures TheStore() == FeedStore(limits, codec, old(TheFraming()), old(TheStore()), chunk)
    {
      var scanFrom := if |buf| > 3 then |buf| - 3 else 0;
      ghost var (f, whole) := (TheFraming(), buf + chunk);
      ghost var s := TheStore();
      RescanThree(buf, chunk, scanFrom);
      buf := buf + chunk;
      ghost var taken: seq<Bytes> := [];
      var m := Search(buf, scanFrom);
      while m.Some?
        invariant m == Search(buf, 0)
        invariant Frames(whole) == taken + Frames(buf) && Rest(whole) == Rest(buf)
        invariant skipping == (f.skipping && taken == [])
        invariant TheStore() == TakenSoFar(limits, codec, f, s, taken)
        decreases |buf|
      {
        var raw := buf[..m.value];
        OneMoreFrame(whole, buf, taken);
        TakeOneMore(limits, codec, f, s, taken, raw);
        buf := AfterSep(buf);
        m := Search(buf, 0);
        EndEvent(raw);
        taken := taken + [raw];
      }
      AllTaken(limits, codec, f, s, chunk, taken, buf);
      BoundBuffer();
    }

    /** A separator was found: the event before it is taken, or was being skipped. */
    method EndEvent(raw: Bytes)
      modifies this`skipping, this`events, this`done, this`stored, this`slots, this`dropped, this`droppedBytes
      ensures !skipping
      ensures TheStore() == if old(skipping) then Drop(old(TheStore()), 0, |raw|)
                            else Take(limits, codec, old(TheStore()), raw)
    {
      if skipping {
        skipping := false;
        droppedBytes := droppedBytes + |raw|;
      } else {
        Event(raw);
      }
    }

    /** An event longer than the limit is skipped from here to its separator. */
    method BoundBuffer()
      requires Valid() && limits.event >= 3
      modifies this`buf, this`skipping, this`dropped, this`droppedBytes
      ensures Valid() && |buf| <= limits.event
      ensures TheFraming() == if old(|buf|) > limits.event then Framing(LastThree(old(buf)), true)
                              else old(TheFraming())
      ensures TheStore() == CutOff(limits, old(TheStore()), old(skipping), old(buf))
    {
      if |buf| > limits.event {
        droppedBytes := droppedBytes + (|buf| - 3);
        if !skipping {
          dropped := dropped + 1;
        }
        skipping := true;
        EndHasNoSep(buf, LastThree(buf));
        buf := LastThree(buf);
      }
    }

    method Event(raw: Bytes)
      modifies this`events, this`done, this`stored, this`slots, this`dropped, this`droppedBytes
      ensures TheStore() == Take(limits, codec, old(TheStore()), raw)
    {
      var values := DataLinesOf(SplitLines(raw));
      if values == [] {
        return;
      }
      var data := codec.decode(Join(values));
      if Strip(data, TextSpace) == "[DONE]" {
        done := true;
        return;
      }
      var obj := codec.parse(data);
      var over := |events| >= limits.events || stored + |data| > limits.stored;
      if over {
        if !Accounting(obj) {
          dropped := dropped + 1;
          droppedBytes := droppedBytes + |data|;
          return;
        }
        var key := TypeOf(obj);
        if key in slots && slots[key] < |events| {
          var idx := slots[key];
          if key == Some(MESSAGE_DELTA) {
            obj := obj.(usage := MergeCounts(UsageOf(events[idx]), obj.usage));
          }
          events := events[idx := obj];
        } else {
          slots := slots[key := |events|];
          events := events + [obj];
        }
        return;
      }
      events := events + [obj];
      stored := stored + |data|;
    }

    /** The end of the stream: an event without its separator still counts. */
    method Close()
      modifies this
      ensures buf == [] && skipping == old(skipping)
      ensures TheStore() == Closed(limits, codec, old(TheFraming()), old(TheStore()))
    {
      if Strip(buf, ByteSpace) != [] && !skipping {
        Event(buf);
      }
      buf := [];
    }
  }

  /** Of the events taken, those that are not the skipped one's end. */
  function Handed(skipped: bool, taken: seq<Bytes>): seq<Bytes> {
    if skipped && taken != [] then taken[1..] else taken
  }

  /** The store once some of a feed's events were taken. */
  function TakenSoFar(l: Limits, c: Codec, f: Framing, s: Store, taken: seq<Bytes>): Store {
    TakeAll(l, c, Drop(s, 0, SkippedEnd(f, taken)), Handed(f.skipping, taken))
  }

  lemma OneMoreFrame(whole: Bytes, buf: Bytes, taken: seq<Bytes>)
    requires Search(buf, 0).Some? && Frames(whole) == taken + Frames(buf) && Rest(whole) == Rest(buf)
    ensures var raw := buf[..Search(buf, 0).value];
            Frames(whole) == (taken + [raw]) + Frames(AfterSep(buf)) && Rest(whole) == Rest(AfterSep(buf))
  {
    FirstFrame(buf);
    Assoc(taken, [buf[..Search(buf, 0).value]], Frames(AfterSep(buf)));
  }

  lemma TakeOneMore(l: Limits, c: Codec, f: Framing, s: Store, taken: seq<Bytes>, raw: Bytes)
    ensures var t := TakenSoFar(l, c, f, s, taken);
            TakenSoFar(l, c, f, s, taken + [raw])
            == if f.skipping && taken == [] then Drop(t, 0, |raw|) else Take(l, c, t, raw)
  {
    if f.skipping && taken == [] {
      assert Handed(true, taken + [raw]) == [];
    } else {
      var s1 := Drop(s, 0, SkippedEnd(f, taken));
      assert SkippedEnd(f, taken + [raw]) == SkippedEnd(f, taken);
      assert Handed(f.skipping, taken + [raw]) == Handed(f.skipping, taken) + [raw];
      TakeAllConcat(l, c, s1, Handed(f.skipping, taken), [raw]);
      TakeAllOne(l, c, TakeAll(l, c, s1, Handed(f.skipping, taken)), raw);
    }
  }

  lemma AllTaken(l: Limits, c: Codec, f: Framing, s: Store, chunk: Bytes, taken: seq<Bytes>, buf: Bytes)
    requires Search(buf, 0).None?
    requires Frames(f.buf + chunk) == taken + Frames(buf) && Rest(f.buf + chunk) == Rest(buf)
    ensures taken == Frames(f.buf + chunk) && buf == Rest(f.buf + chunk)
    ensures FeedStore(l, c, f, s, chunk) == CutOff(l, TakenSoFar(l, c, f, s, taken), f.skipping && taken == [], buf)
  {
    assert taken + [] == taken;
  }

  function Closed(l: Limits, c: Codec, f: Framing, s: Store): Store {
    if Strip(f.buf, ByteSpace) != [] && !f.skipping then Take(l, c, s, f.buf) else s
  }

  method DataLinesOf(lines: seq<Bytes>) returns (values: seq<Bytes>)
    ensures values == DataValues(lines)
  {
    values := [];
    var i := 0;
    while i < |lines|
      invariant 0 <= i <= |lines|
      invariant values == DataValues(lines[..i])
    {
      assert lines[..i + 1][..i] == lines[..i];
      if DataLine(lines[i]) {
        var d := lines[i][5..];
        if |d| > 0 && d[0] == ' ' {
          d := d[1..];
        }
        values := values + [d];
      }
      i := i + 1;
    }
    assert lines[..i] == lines;
  }

  lemma TakeAllOne(l: Limits, c: Codec, s: Store, raw: Bytes)
    ensures TakeAll(l, c, s, [raw]) == Take(l, c, s, raw)
  {
    assert [raw][..0] == [];
  }

  /** A whole stream, fed chunk by chunk and closed. */
  method ParseStream(limits: Limits, c: Codec, chunks: seq<Bytes>) returns (p: SseParser)
    requires limits.event >= 3
    ensures p.TheStore() == Parsed(limits, c, chunks)
  {
    p := new SseParser(limits, c);
    var i := 0;
    while i < |chunks|
      invariant 0 <= i <= |chunks| && fresh(p) && p.Valid() && p.limits == limits && p.codec == c
      invariant p.TheFraming() == Run(limits.event, chunks[..i]).1 && p.TheStore() == Stored(limits, c, chunks[..i])
    {
      assert chunks[..i + 1][..i] == chunks[..i];
      p.Feed(chunks[i]);
      i := i + 1;
    }
    assert chunks[..i] == chunks;
    p.Close();
  }

  /** The store after some chunks. */
  function Stored(l: Limits, c: Codec, chunks: seq<Bytes>): Store {
    if chunks == [] then EmptyStore
    else
      var before := chunks[..|chunks| - 1];
      FeedStore(l, c, Run(l.event, before).1, Stored(l, c, before), chunks[|chunks| - 1])
  }

  /** What a chunked stream leaves in the store. */
  function Parsed(l: Limits, c: Codec, chunks: seq<Bytes>): Store {
    Closed(l, c, Run(l.event, chunks).1, Stored(l, c, chunks))
  }

  /** What a whole stream means: all its events, and its unfinished end. */
  function Meaning(l: Limits, c: Codec, stream: Bytes): Store {
    Closed(l, c, Framing(Rest(stream), false), TakeAll(l, c, EmptyStore, Frames(stream)))
  }

  /** A stream whose events, and whose unfinished end, fit. */
  predicate Fits(l: Limits, stream: Bytes) {
    && (forall i :: 0 <= i < |Frames(stream)| ==> |Frames(stream)[i]| + 3 <= l.event)
    && |Rest(stream)| <= l.event
  }

  /** A start of a stream that fits, fits. */
  lemma StartFits(l: Limits, before: Bytes, chunk: Bytes)
    requires l.event >= 3 && Fits(l, before + chunk)
    ensures Fits(l, before)
  {
    var rest := Rest(before);
    FramesConcat(before, chunk);
    RestHasNoSep(before);
    forall i | 0 <= i < |Frames(before)| ensures |Frames(before)[i]| + 3 <= l.event {
      assert Frames(before + chunk)[i] == Frames(before)[i];
    }
    var m := Search(rest + chunk, 0);
    if m.Some? {
      StartsLate(rest, chunk);
      FirstFrame(rest + chunk);
      assert Frames(before + chunk)[|Frames(before)|] == Frames(rest + chunk)[0];
    }
  }

  /** In a stream that fits nothing is let go by the framing. */
  lemma {:induction false} FittingStored(l: Limits, c: Codec, chunks: seq<Bytes>)
    requires l.event >= 3 && Fits(l, Flatten(chunks))
    ensures Stored(l, c, chunks) == TakeAll(l, c, EmptyStore, Frames(Flatten(chunks)))
  {
    if chunks != [] {
      var (init, chunk) := (chunks[..|chunks| - 1], chunks[|chunks| - 1]);
      var before := Flatten(init);
      StartFits(l, before, chunk);
      FittingStored(l, c, init);
      SmallEventsAnyChunking(l.event, init);
      FramesConcat(before, chunk);
      TakeAllConcat(l, c, EmptyStore, Frames(before), Frames(Rest(before) + chunk));
    }
  }

  /** A stream whose events fit parses to its meaning, however it is cut into chunks: the same
      events, done flag and counts of what was dropped as in one chunk. */
  lemma ChunkingDoesNotMatter(l: Limits, c: Codec, chunks: seq<Bytes>)
    requires l.event >= 3 && Fits(l, Flatten(chunks))
    ensures Parsed(l, c, chunks) == Meaning(l, c, Flatten(chunks))
    ensures Parsed(l, c, chunks) == Parsed(l, c, [Flatten(chunks)])
  {
    SmallEventsAnyChunking(l.event, chunks);
    FittingStored(l, c, chunks);
    var one := [Flatten(chunks)];
    assert one[..0] == [];
    assert Flatten(one) == Flatten([]) + Flatten(chunks) == Flatten(chunks);
    SmallEventsAnyChunking(l.event, one);
    FittingStored(l, c, one);
  }
}
