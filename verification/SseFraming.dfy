/** eval/crazeeval/capture.py: how an event stream is cut into events. The separator is the
    code's own pattern, an optional CR, LF, an optional CR, LF (section 9.2.5 of the WHATWG
    HTML Standard also takes a lone CR). */
module SseFraming {
  import opened Common
  import opened ByteStrings

  /** The length of a separator standing at `i`, 0 when none does. */
  function SepLen(b: Bytes, i: nat): (n: nat)
    ensures n == 0 || (2 <= n <= 4 && i + n <= |b|)
  {
    var j := if i < |b| && b[i] == '\r' then i + 1 else i;
    if j < |b| && b[j] == '\n' then
      var k := if j + 1 < |b| && b[j + 1] == '\r' then j + 2 else j + 1;
      if k < |b| && b[k] == '\n' then k + 1 - i else 0
    else 0
  }

  /** The separators: two line feeds, a carriage return before either or both. */
  const SEPARATORS: set<Bytes> := {"\n\n", "\r\n\n", "\n\r\n", "\r\n\r\n"}

  lemma SepLenIs(b: Bytes, i: nat, n: nat)
    requires n > 0
    ensures SepLen(b, i) == n <==> i + n <= |b| && b[i..i + n] in SEPARATORS
  {
    if i + n <= |b| {
      var s := b[i..i + n];
      assert forall k :: 0 <= k < n ==> s[k] == b[i + k];
      assert n == 2 ==> s == [s[0], s[1]];
      assert n == 3 ==> s == [s[0], s[1], s[2]];
      assert n == 4 ==> s == [s[0], s[1], s[2], s[3]];
    }
  }

  /** `SEP.search(b, from)`: where the leftmost separator starts. */
  function Search(b: Bytes, from: nat): (r: Option<nat>)
    requires from <= |b|
    ensures r.Some? ==> from <= r.value < |b| && SepLen(b, r.value) > 0
    ensures forall i :: from <= i < (if r.Some? then r.value else |b|) ==> SepLen(b, i) == 0
    decreases |b| - from
  {
    if from == |b| then None
    else if SepLen(b, from) > 0 then Some(from)
    else Search(b, from + 1)
  }

  // ---- the whole stream ----------------------------------------------------

  /** The events of a stream: what stands before each separator. */
  function Frames(s: Bytes): seq<Bytes>
    decreases |s|
  {
    match Search(s, 0)
    case None => []
    case Some(i) => [s[..i]] + Frames(s[i + SepLen(s, i)..])
  }

  /** What follows the last separator. */
  function Rest(s: Bytes): Bytes
    decreases |s|
  {
    match Search(s, 0)
    case None => s
    case Some(i) => Rest(s[i + SepLen(s, i)..])
  }

  // ---- chunk by chunk ------------------------------------------------------

  /** The buffer, and whether the event in it is oversized and skipped to its separator. */
  datatype Framing = Framing(buf: Bytes, skipping: bool)

  /** One `feed`: the events it hands on, and the framing after it. */
  function Feed(max: nat, f: Framing, chunk: Bytes): (seq<Bytes>, Framing) {
    var frames := Frames(f.buf + chunk);
    var rest := Rest(f.buf + chunk);
    var kept := if f.skipping && frames != [] then frames[1..] else frames;
    var skipping := f.skipping && frames == [];
    (kept, if |rest| > max then Framing(LastThree(rest), true) else Framing(rest, skipping))
  }

  /** `buf[-3:]` */
  function LastThree(b: Bytes): Bytes { if |b| <= 3 then b else b[|b| - 3..] }

  function Run(max: nat, chunks: seq<Bytes>): (seq<Bytes>, Framing) {
    if chunks == [] then ([], Framing([], false)) else
      var (kept, f) := Run(max, chunks[..|chunks| - 1]);
      var (more, f') := Feed(max, f, chunks[|chunks| - 1]);
      (kept + more, f')
  }

  /** `kept` is `all` with some events longer than `limit` left out. */
  ghost predicate Thinned(kept: seq<Bytes>, all: seq<Bytes>, limit: int)
    decreases |all|
  {
    if all == [] then kept == []
    else
      var (init, last) := (all[..|all| - 1], all[|all| - 1]);
      || (kept != [] && kept[|kept| - 1] == last && Thinned(kept[..|kept| - 1], init, limit))
      || (|last| > limit && Thinned(kept, init, limit))
  }

  // ---- separators ----------------------------------------------------------

  /** A separator that stands in `s` stands there whatever follows; one that `more`
      completes starts in the last three bytes of `s`. */
  lemma SepLenConcat(s: Bytes, more: Bytes, i: nat)
    ensures SepLen(s, i) > 0 ==> SepLen(s + more, i) == SepLen(s, i)
    ensures SepLen(s, i) == 0 && i < |s| && SepLen(s + more, i) > 0 ==> |s| < i + SepLen(s + more, i)
  {
    var t := s + more;
    assert forall j :: 0 <= j < |s| ==> t[j] == s[j];
  }

  lemma SepLenShift(a: Bytes, b: Bytes, i: nat)
    ensures SepLen(a + b, |a| + i) == SepLen(b, i)
  {
    var t := a + b;
    assert forall j :: 0 <= j < |b| ==> t[|a| + j] == b[j];
  }

  /** Of two separators the one that starts first ends no later. */
  lemma EarlierEndsNoLater(b: Bytes, i: nat, j: nat)
    requires i < j && SepLen(b, i) > 0 && SepLen(b, j) > 0
    ensures i + SepLen(b, i) <= j + SepLen(b, j)
  {
  }

  /** The leftmost separator of a stream stays so as the stream grows. */
  lemma SearchStable(s: Bytes, more: Bytes)
    requires Search(s, 0).Some?
    ensures Search(s + more, 0) == Search(s, 0)
    ensures SepLen(s + more, Search(s, 0).value) == SepLen(s, Search(s, 0).value)
  {
    var i := Search(s, 0).value;
    var t := s + more;
    SepLenConcat(s, more, i);
    forall k | 0 <= k < i ensures SepLen(t, k) == 0 {
      SepLenConcat(s, more, k);
      if SepLen(t, k) > 0 {
        EarlierEndsNoLater(t, k, i);
      }
    }
  }

  /** Where a search may start does not matter when nothing stands before it. */
  lemma {:induction false} SearchFrom(b: Bytes, from: nat, to: nat)
    requires from <= to <= |b|
    requires forall i :: from <= i < to ==> SepLen(b, i) == 0
    ensures Search(b, from) == Search(b, to)
    decreases |b| - from
  {
    if from < to {
      SearchFrom(b, from + 1, to);
    }
  }

  /** A buffer with no separator need only be searched again from its last three bytes. */
  lemma RescanThree(buf: Bytes, chunk: Bytes, from: nat)
    requires Search(buf, 0).None? && from <= Max(0, |buf| - 3)
    ensures Search(buf + chunk, 0) == Search(buf + chunk, from)
  {
    forall i | 0 <= i < from ensures SepLen(buf + chunk, i) == 0 {
      SepLenConcat(buf, chunk, i);
    }
    SearchFrom(buf + chunk, 0, from);
  }

  /** A search's result, told by where separators stand. */
  ghost predicate IsSearch(b: Bytes, r: Option<nat>) {
    && (r.Some? ==> r.value < |b| && SepLen(b, r.value) > 0)
    && forall i :: 0 <= i < (if r.Some? then r.value else |b|) ==> SepLen(b, i) == 0
  }

  lemma SearchIs(b: Bytes, r: Option<nat>)
    requires IsSearch(b, r)
    ensures Search(b, 0) == r
  {
  }

  /** Searching what was cut off the front changes only where things stand. */
  lemma SearchSuffix(a: Bytes, b: Bytes)
    requires forall i :: 0 <= i < |a| ==> SepLen(a + b, i) == 0
    ensures Search(a + b, 0) == if Search(b, 0).Some? then Some(|a| + Search(b, 0).value) else None
  {
    var r := Search(b, 0);
    var to := if r.Some? then |a| + r.value else |a + b|;
    forall i | 0 <= i < to ensures SepLen(a + b, i) == 0 {
      if i >= |a| {
        SepLenShift(a, b, i - |a|);
      }
    }
    if r.Some? {
      SepLenShift(a, b, r.value);
    }
    SearchIs(a + b, if r.Some? then Some(|a| + r.value) else None);
  }

  /** The end of a buffer without a separator has none. */
  lemma EndHasNoSep(b: Bytes, end: Bytes)
    requires Search(b, 0).None? && EndsWith(b, end)
    ensures Search(end, 0).None?
  {
    var cut := b[..|b| - |end|];
    assert b == cut + end;
    forall i | 0 <= i < |end| ensures SepLen(end, i) == 0 {
      SepLenShift(cut, end, i);
    }
  }

  // ---- frames --------------------------------------------------------------

  lemma {:induction false} RestHasNoSep(s: Bytes)
    ensures Search(Rest(s), 0).None? && Frames(Rest(s)) == [] && Rest(Rest(s)) == Rest(s)
    decreases |s|
  {
    if Search(s, 0).Some? {
      var i := Search(s, 0).value;
      var after := s[i + SepLen(s, i)..];
      RestHasNoSep(after);
      assert Rest(s) == Rest(after);
    }
  }

  /** The stream after its first separator. */
  function AfterSep(s: Bytes): (t: Bytes)
    requires Search(s, 0).Some?
    ensures |t| < |s|
  {
    var i := Search(s, 0).value;
    s[i + SepLen(s, i)..]
  }

  lemma FirstFrame(s: Bytes)
    requires Search(s, 0).Some?
    ensures Frames(s) == [s[..Search(s, 0).value]] + Frames(AfterSep(s)) && Rest(s) == Rest(AfterSep(s))
  {
  }

  /** The first event stays the first as the stream grows. */
  lemma FirstFrameStable(s: Bytes, more: Bytes)
    requires Search(s, 0).Some?
    ensures Search(s + more, 0) == Search(s, 0)
    ensures (s + more)[..Search(s, 0).value] == s[..Search(s, 0).value]
    ensures AfterSep(s + more) == AfterSep(s) + more
  {
    SearchStable(s, more);
    var i := Search(s, 0).value;
    SliceConcat(s, more, i);
    SliceConcat(s, more, i + SepLen(s, i));
  }

  /** The events of a longer stream: those there were, then those of the rest and what
      came. */
  lemma {:induction false} FramesConcat(s: Bytes, more: Bytes)
    ensures Frames(s + more) == Frames(s) + Frames(Rest(s) + more)
    ensures Rest(s + more) == Rest(Rest(s) + more)
    decreases |s|
  {
    if Search(s, 0).Some? {
      FirstFrame(s);
      FirstFrameStable(s, more);
      FirstFrame(s + more);
      FramesConcat(AfterSep(s), more);
      Assoc([s[..Search(s, 0).value]], Frames(AfterSep(s)), Frames(Rest(s) + more));
    } else {
      assert [] + Frames(s + more) == Frames(s + more);
    }
  }

  // ---- thinning ------------------------------------------------------------

  lemma {:induction false} ThinnedConcat(a: seq<Bytes>, all: seq<Bytes>, b: seq<Bytes>, more: seq<Bytes>, limit: int)
    requires Thinned(a, all, limit) && Thinned(b, more, limit)
    ensures Thinned(a + b, all + more, limit)
    decreases |more|
  {
    if more == [] {
      assert all + more == all && a + b == a;
    } else {
      var (init, last) := (more[..|more| - 1], more[|more| - 1]);
      assert (all + more)[..|all + more| - 1] == all + init;
      if b != [] && b[|b| - 1] == last && Thinned(b[..|b| - 1], init, limit) {
        ThinnedConcat(a, all, b[..|b| - 1], init, limit);
        assert (a + b)[..|a + b| - 1] == a + b[..|b| - 1];
      } else {
        ThinnedConcat(a, all, b, init, limit);
      }
    }
  }

  lemma {:induction false} ThinnedSame(all: seq<Bytes>, limit: int)
    ensures Thinned(all, all, limit)
    decreases |all|
  {
    if all != [] {
      ThinnedSame(all[..|all| - 1], limit);
    }
  }

  lemma {:induction false} ThinnedShort(kept: seq<Bytes>, all: seq<Bytes>, limit: int)
    requires Thinned(kept, all, limit) && forall i :: 0 <= i < |all| ==> |all[i]| <= limit
    ensures kept == all
    decreases |all|
  {
    if all != [] {
      ThinnedShort(kept[..|kept| - 1], all[..|all| - 1], limit);
      assert kept == kept[..|kept| - 1] + [all[|all| - 1]];
      assert all == all[..|all| - 1] + [all[|all| - 1]];
    }
  }

  lemma ThinnedFirst(other: Bytes, first: Bytes, more: seq<Bytes>, limit: int)
    requires |first| > limit
    ensures Thinned(([other] + more)[1..], [first] + more, limit)
  {
    assert [first][..0] == [];
    assert Thinned([], [first][..0], limit);
    assert Thinned([], [first], limit);
    ThinnedSame(more, limit);
    ThinnedConcat([], [first], more, more, limit);
    assert [] + more == more && ([other] + more)[1..] == more;
  }

  // ---- any chunking --------------------------------------------------------

  /** What the framing knows of a stream whose rest (after the last separator) is `rest`:
      the rest itself, or, of an oversized one, at least its last three bytes. */
  ghost predicate Follows(max: nat, f: Framing, rest: Bytes) {
    && |f.buf| <= max
    && if f.skipping then |rest| > max && |f.buf| >= 3 && EndsWith(rest, f.buf) else f.buf == rest
  }

  /** One chunk more. */
  lemma FeedFollows(max: nat, f: Framing, rest: Bytes, chunk: Bytes)
    requires max >= 3 && Search(rest, 0).None? && Follows(max, f, rest)
    ensures var (kept, f') := Feed(max, f, chunk);
            && Follows(max, f', Rest(rest + chunk))
            && Thinned(kept, Frames(rest + chunk), max - 3)
  {
    if f.skipping {
      SkippedFollows(max, f, rest, chunk);
    } else {
      BufferedFollows(max, rest, chunk);
    }
  }

  lemma BufferedFollows(max: nat, rest: Bytes, chunk: Bytes)
    requires max >= 3
    ensures var (kept, f') := Feed(max, Framing(rest, false), chunk);
            && Follows(max, f', Rest(rest + chunk))
            && Thinned(kept, Frames(rest + chunk), max - 3)
  {
    ThinnedSame(Frames(rest + chunk), max - 3);
    EndsWithLastThree(Rest(rest + chunk));
  }

  lemma EndsWithLastThree(b: Bytes)
    ensures EndsWith(b, LastThree(b))
  {
  }

  /** While an oversized event is skipped, its kept end finds the same separator. */
  lemma SkippedFollows(max: nat, f: Framing, rest: Bytes, chunk: Bytes)
    requires max >= 3 && Search(rest, 0).None? && Follows(max, f, rest) && f.skipping
    ensures var (kept, f') := Feed(max, f, chunk);
            && Follows(max, f', Rest(rest + chunk))
            && Thinned(kept, Frames(rest + chunk), max - 3)
  {
    SkippedSearch(rest, f.buf, chunk);
    if Search(f.buf + chunk, 0).Some? {
      SkippedEnds(max, f.buf, rest, chunk);
      EndsWithLastThree(Rest(f.buf + chunk));
    } else {
      SkippedGrows(max, f.buf, rest, chunk);
    }
  }

  lemma SkippedEnds(max: nat, buf: Bytes, rest: Bytes, chunk: Bytes)
    requires |rest| > max && Search(buf + chunk, 0).Some? && Search(rest + chunk, 0).Some?
    requires Search(rest + chunk, 0).value + 3 >= |rest| && AfterSep(rest + chunk) == AfterSep(buf + chunk)
    ensures Frames(buf + chunk) != [] && Rest(buf + chunk) == Rest(rest + chunk)
    ensures Thinned(Frames(buf + chunk)[1..], Frames(rest + chunk), max - 3)
  {
    FirstFrame(buf + chunk);
    FirstFrame(rest + chunk);
    ThinnedFirst((buf + chunk)[..Search(buf + chunk, 0).value], (rest + chunk)[..Search(rest + chunk, 0).value],
                 Frames(AfterSep(rest + chunk)), max - 3);
  }

  lemma NoSepBefore(rest: Bytes, chunk: Bytes, i: nat)
    requires Search(rest, 0).None? && i + 3 < |rest|
    ensures SepLen(rest + chunk, i) == 0
  {
    SepLenConcat(rest, chunk, i);
  }

  /** The skipped event's last three bytes suffice to find its separator: it starts there
      or later, and the same bytes follow it. */
  lemma SkippedSearch(rest: Bytes, buf: Bytes, chunk: Bytes)
    requires Search(rest, 0).None? && |buf| >= 3 && EndsWith(rest, buf)
    ensures Search(rest + chunk, 0).Some? <==> Search(buf + chunk, 0).Some?
    ensures Search(rest + chunk, 0).Some? ==>
              Search(rest + chunk, 0).value + 3 >= |rest| && AfterSep(rest + chunk) == AfterSep(buf + chunk)
  {
    var cut := rest[..|rest| - |buf|];
    assert rest == cut + buf;
    Assoc(cut, buf, chunk);
    CutSearch(cut, buf + chunk, rest, chunk);
    if Search(buf + chunk, 0).Some? {
      var i := Search(buf + chunk, 0).value;
      SepLenShift(cut, buf + chunk, i);
      SameAfterSep(cut, buf + chunk, i, SepLen(buf + chunk, i));
      StartsLate(rest, chunk);
    }
  }

  lemma StartsLate(rest: Bytes, chunk: Bytes)
    requires Search(rest, 0).None? && Search(rest + chunk, 0).Some?
    ensures Search(rest + chunk, 0).value + 3 >= |rest|
  {
    var i := Search(rest + chunk, 0).value;
    if i + 3 < |rest| {
      NoSepBefore(rest, chunk, i);
    }
  }

  lemma CutSearch(cut: Bytes, b: Bytes, rest: Bytes, chunk: Bytes)
    requires cut + b == rest + chunk && Search(rest, 0).None? && |cut| + 3 <= |rest|
    ensures Search(cut + b, 0) == if Search(b, 0).Some? then Some(|cut| + Search(b, 0).value) else None
  {
    forall i | 0 <= i < |cut| ensures SepLen(cut + b, i) == 0 {
      NoSepBefore(rest, chunk, i);
    }
    SearchSuffix(cut, b);
  }

  lemma SameAfterSep(cut: Bytes, b: Bytes, i: nat, n: nat)
    requires Search(b, 0) == Some(i) && SepLen(b, i) == n
    requires Search(cut + b, 0) == Some(|cut| + i) && SepLen(cut + b, |cut| + i) == n
    ensures AfterSep(cut + b) == AfterSep(b)
  {
    var (s, j) := (cut + b, |cut| + i);
    AfterSepIs(b, i, n, i + n);
    AfterSepIs(s, j, n, |cut| + (i + n));
    DropCut(cut, b, i + n);
  }

  lemma AfterSepIs(s: Bytes, i: nat, n: nat, e: nat)
    requires Search(s, 0) == Some(i) && SepLen(s, i) == n && e == i + n
    ensures e <= |s| && AfterSep(s) == s[e..]
  {
  }

  lemma DropCut(cut: Bytes, b: Bytes, e: nat)
    requires e <= |b|
    ensures (cut + b)[|cut| + e..] == b[e..]
  {
  }

  lemma SkippedGrows(max: nat, buf: Bytes, rest: Bytes, chunk: Bytes)
    requires max >= 3 && |rest| > max && |buf| >= 3 && EndsWith(rest, buf)
    ensures EndsWith(rest + chunk, buf + chunk) && EndsWith(rest + chunk, LastThree(buf + chunk))
  {
    var d := |rest| - |buf|;
    assert (rest + chunk)[d..] == buf + chunk;
    var l := LastThree(buf + chunk);
    assert (rest + chunk)[|rest + chunk| - |l|..] == (buf + chunk)[|buf + chunk| - |l|..];
  }

  /** Whatever the chunking of whatever stream: the events handed on are the stream's, in
      order, but for some longer than `max - 3` bytes; and the buffer is never over `max`. */
  lemma {:induction false} AnyChunking(max: nat, chunks: seq<Bytes>)
    requires max >= 3
    ensures var (kept, f) := Run(max, chunks);
            && Thinned(kept, Frames(Flatten(chunks)), max - 3)
            && Follows(max, f, Rest(Flatten(chunks)))
  {
    if chunks == [] {
      assert Search([], 0).None?;
    } else {
      var before := Flatten(chunks[..|chunks| - 1]);
      var (kept, f) := Run(max, chunks[..|chunks| - 1]);
      var chunk := chunks[|chunks| - 1];
      var (more, f') := Feed(max, f, chunk);
      AnyChunking(max, chunks[..|chunks| - 1]);
      RestHasNoSep(before);
      FeedFollows(max, f, Rest(before), chunk);
      OneMoreChunk(max, kept, more, f', before, chunk);
    }
  }

  lemma OneMoreChunk(max: nat, kept: seq<Bytes>, more: seq<Bytes>, f: Framing, before: Bytes, chunk: Bytes)
    requires Thinned(kept, Frames(before), max - 3) && Thinned(more, Frames(Rest(before) + chunk), max - 3)
    requires Follows(max, f, Rest(Rest(before) + chunk))
    ensures Thinned(kept + more, Frames(before + chunk), max - 3)
    ensures Follows(max, f, Rest(before + chunk))
  {
    FramesConcat(before, chunk);
    ThinnedConcat(kept, Frames(before), more, Frames(Rest(before) + chunk), max - 3);
  }

  /** When every event is at least three bytes shorter than the limit, and the unfinished
      end within it, the chunking does not matter at all. */
  lemma SmallEventsAnyChunking(max: nat, chunks: seq<Bytes>)
    requires max >= 3
    requires forall i :: 0 <= i < |Frames(Flatten(chunks))| ==> |Frames(Flatten(chunks))[i]| + 3 <= max
    requires |Rest(Flatten(chunks))| <= max
    ensures Run(max, chunks) == (Frames(Flatten(chunks)), Framing(Rest(Flatten(chunks)), false))
  {
    AnyChunking(max, chunks);
    ThinnedShort(Run(max, chunks).0, Frames(Flatten(chunks)), max - 3);
  }
}
