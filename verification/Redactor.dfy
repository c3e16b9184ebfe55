/** eval/crazeeval/proxy.py: `Redactor`, the response bytes with every loaded key
    replaced, chunk by chunk. */
module Redaction {
  import opened Common
  import opened ByteStrings

  const REDACTED: Bytes := "<scrubbed-key>"

  /** What a key form may be for the redactor to hide it: not empty (the key ring drops
      empty keys), free of the placeholder's brackets, and not a part of its text. */
  ghost predicate Hidable(f: Bytes) {
    f != [] && '<' !in f && '>' !in f && !Occurs(f, REDACTED)
  }

  predicate NonEmpty(forms: seq<Bytes>) {
    forall i :: 0 <= i < |forms| ==> forms[i] != []
  }

  // ---- specification -------------------------------------------------------

  /** `buf.replace(f, REDACTED)`: leftmost, non-overlapping. */
  function Replace(buf: Bytes, f: Bytes): Bytes
    requires f != []
  {
    if |buf| < |f| then buf
    else if buf[..|f|] == f then REDACTED + Replace(buf[|f|..], f)
    else [buf[0]] + Replace(buf[1..], f)
  }

  /** `buf.count(f)`. */
  function Occurrences(buf: Bytes, f: Bytes): nat
    requires f != []
  {
    if |buf| < |f| then 0
    else if buf[..|f|] == f then 1 + Occurrences(buf[|f|..], f)
    else Occurrences(buf[1..], f)
  }

  /** Every form in turn, as `_replace` does. */
  function ReplaceForms(buf: Bytes, forms: seq<Bytes>): Bytes
    requires NonEmpty(forms)
    decreases |forms|
  {
    if forms == [] then buf else ReplaceForms(Replace(buf, forms[0]), forms[1..])
  }

  /** How many replacements that makes. */
  function Redactions(buf: Bytes, forms: seq<Bytes>): nat
    requires NonEmpty(forms)
    decreases |forms|
  {
    if forms == [] then 0
    else Occurrences(buf, forms[0]) + Redactions(Replace(buf, forms[0]), forms[1..])
  }

  /** The largest k up to `k` such that `buf` ends with the form's first k bytes. */
  function OverlapFrom(buf: Bytes, f: Bytes, k: nat): (r: nat)
    requires k <= |f|
    ensures r <= k && EndsWith(buf, f[..r])
  {
    if k == 0 || EndsWith(buf, f[..k]) then k else OverlapFrom(buf, f, k - 1)
  }

  /** The longest suffix of `buf` that could be the start of the form. */
  function Overlap(buf: Bytes, f: Bytes): (k: nat)
    requires f != []
    ensures k < |f| && EndsWith(buf, f[..k])
  {
    OverlapFrom(buf, f, Min(|f| - 1, |buf|))
  }

  /** How much `feed` holds back: the longest such suffix over the forms. */
  function HeldLength(buf: Bytes, forms: seq<Bytes>): (h: nat)
    requires NonEmpty(forms)
    ensures h <= |buf|
  {
    if forms == [] then 0
    else Max(HeldLength(buf, forms[..|forms| - 1]), Overlap(buf, forms[|forms| - 1]))
  }

  /** One `feed`: what goes out and what is held. */
  function Step(forms: seq<Bytes>, held: Bytes, chunk: Bytes): (r: (Bytes, Bytes))
    requires NonEmpty(forms)
    ensures r.0 + r.1 == ReplaceForms(held + chunk, forms)
  {
    var buf := ReplaceForms(held + chunk, forms);
    var cut := |buf| - HeldLength(buf, forms);
    (buf[..cut], buf[cut..])
  }

  /** All that went out, and what is held, after some chunks. */
  function Run(forms: seq<Bytes>, chunks: seq<Bytes>): (Bytes, Bytes)
    requires NonEmpty(forms)
  {
    if chunks == [] then ([], []) else
      var (sent, held) := Run(forms, chunks[..|chunks| - 1]);
      var (out, held') := Step(forms, held, chunks[|chunks| - 1]);
      (sent + out, held')
  }

  /** Everything the harness receives: the outputs and the final flush. */
  function Relayed(forms: seq<Bytes>, chunks: seq<Bytes>): Bytes
    requires NonEmpty(forms)
  {
    var (sent, held) := Run(forms, chunks);
    sent + ReplaceForms(held, forms)
  }

  // ---- the class -----------------------------------------------------------

  class Redactor {
    const forms: seq<Bytes>
    var held: Bytes
    var redactions: nat

    constructor (forms: seq<Bytes>)
      ensures this.forms == forms && held == [] && redactions == 0
    {
      this.forms := forms;
      held := [];
      redactions := 0;
    }

    /** `_replace`: counts the redactions as it goes. */
    method ReplaceAll(buf: Bytes) returns (out: Bytes)
      requires NonEmpty(forms)
      modifies this`redactions
      ensures out == ReplaceForms(buf, forms)
      ensures redactions == old(redactions) + Redactions(buf, forms)
    {
      out := buf;
      var i := 0;
      while i < |forms|
        invariant 0 <= i <= |forms|
        invariant ReplaceForms(out, forms[i..]) == ReplaceForms(buf, forms)
        invariant redactions + Redactions(out, forms[i..]) == old(redactions) + Redactions(buf, forms)
      {
        var f := forms[i];
        assert forms[i..][0] == f && forms[i..][1..] == forms[i + 1..];
        var present := Contains(out, f);
        if present {
          var n := Count(out, f);
          redactions := redactions + n;
          out := Replace(out, f);
        } else {
          ReplaceAbsent(out, f);
        }
        i := i + 1;
      }
    }

    method Feed(chunk: Bytes) returns (out: Bytes)
      requires NonEmpty(forms)
      modifies this
      ensures (out, held) == Step(forms, old(held), chunk)
      ensures redactions == old(redactions) + Redactions(old(held) + chunk, forms)
    {
      var buf := ReplaceAll(held + chunk);
      var cut := |buf|;
      var i := 0;
      while i < |forms|
        invariant 0 <= i <= |forms|
        invariant cut == |buf| - HeldLength(buf, forms[..i])
        invariant redactions == old(redactions) + Redactions(old(held) + chunk, forms)
      {
        var k := LongestStart(buf, forms[i]);
        cut := Min(cut, |buf| - k);
        assert forms[..i + 1][..i] == forms[..i];
        i := i + 1;
      }
      assert forms[..i] == forms;
      held := buf[cut..];
      out := buf[..cut];
    }

    method Flush() returns (out: Bytes)
      requires NonEmpty(forms)
      modifies this
      ensures held == [] && out == ReplaceForms(old(held), forms)
      ensures redactions == old(redactions) + Redactions(old(held), forms)
    {
      out := ReplaceAll(held);
      held := [];
    }
  }

  /** The inner loop of `feed`: the longest start of a form at the end of the buffer. */
  method LongestStart(buf: Bytes, f: Bytes) returns (k: nat)
    requires f != []
    ensures k == Overlap(buf, f)
  {
    k := Min(|f| - 1, |buf|);
    while k > 0 && !EndsWith(buf, f[..k])
      invariant 0 <= k <= Min(|f| - 1, |buf|)
      invariant OverlapFrom(buf, f, k) == Overlap(buf, f)
    {
      k := k - 1;
    }
  }

  /** `buf.count(f)`: non-overlapping occurrences. */
  method Count(buf: Bytes, f: Bytes) returns (n: nat)
    requires f != []
    ensures n == Occurrences(buf, f)
  {
    var i := 0;
    n := 0;
    while i + |f| <= |buf|
      invariant 0 <= i <= |buf|
      invariant n + Occurrences(buf[i..], f) == Occurrences(buf, f)
      decreases |buf| - i
    {
      assert buf[i..][|f|..] == buf[i + |f|..] && buf[i..][1..] == buf[i + 1..];
      assert buf[i..][..|f|] == buf[i..i + |f|];
      if buf[i..i + |f|] == f {
        n := n + 1;
        i := i + |f|;
      } else {
        i := i + 1;
      }
    }
  }

  lemma RunNext(forms: seq<Bytes>, chunks: seq<Bytes>, i: nat)
    requires NonEmpty(forms) && i < |chunks|
    ensures var (sent, held) := Run(forms, chunks[..i]);
            var (out, held') := Step(forms, held, chunks[i]);
            Run(forms, chunks[..i + 1]) == (sent + out, held')
  {
    assert chunks[..i + 1][..i] == chunks[..i];
  }

  /** The relay loop of `_handle_route`: every chunk taken is fed, what comes out is written,
      and the tail is flushed at the end; but from the `goneAt`-th chunk on, the harness is
      gone and nothing more is written. */
  method Relay(forms: seq<Bytes>, chunks: seq<Bytes>, goneAt: nat) returns (written: Bytes)
    requires NonEmpty(forms)
    ensures written == if |chunks| < goneAt then Relayed(forms, chunks) else Run(forms, chunks[..goneAt]).0
  {
    var red := new Redactor(forms);
    written := [];
    var i := 0;
    while i < |chunks|
      invariant 0 <= i <= |chunks| && fresh(red) && red.forms == forms
      invariant red.held == Run(forms, chunks[..i]).1
      invariant written == Run(forms, chunks[..Min(i, goneAt)]).0
    {
      RunNext(forms, chunks, i);
      var out := red.Feed(chunks[i]);
      if out != [] && i < goneAt {
        written := written + out;
      }
      i := i + 1;
    }
    assert chunks[..i] == chunks;
    var tail := red.Flush();
    if tail != [] && i < goneAt {
      written := written + tail;
    }
  }

  // ---- what replacing does -------------------------------------------------

  lemma {:induction false} ReplaceAbsent(buf: Bytes, f: Bytes)
    requires f != [] && !Occurs(f, buf)
    ensures Replace(buf, f) == buf && Occurrences(buf, f) == 0
  {
    if |buf| >= |f| {
      assert !At(buf, 0, f);
      assert buf[..|f|] == buf[0..|f|];
      assert buf == buf[..1] + buf[1..];
      AbsentInParts(buf[..1], buf[1..], f);
      ReplaceAbsent(buf[1..], f);
    }
  }

  lemma {:induction false} ReplaceFormsAbsent(buf: Bytes, forms: seq<Bytes>)
    requires NonEmpty(forms) && NoneIn(forms, buf)
    ensures ReplaceForms(buf, forms) == buf && Redactions(buf, forms) == 0
    decreases |forms|
  {
    if forms != [] {
      ReplaceAbsent(buf, forms[0]);
      ReplaceFormsAbsent(buf, forms[1..]);
    }
  }

  /** Up to the first bracket, replacing changed nothing. */
  lemma {:induction false} ReplacePlainPrefix(buf: Bytes, f: Bytes, m: nat)
    requires f != [] && m <= |Replace(buf, f)|
    ensures '<' !in Replace(buf, f)[..m] ==> m <= |buf| && buf[..m] == Replace(buf, f)[..m]
  {
    var r := Replace(buf, f);
    if |buf| < |f| || m == 0 {
    } else if buf[..|f|] == f {
      assert r[..m][0] == r[0] == REDACTED[0];
    } else {
      var t := Replace(buf[1..], f);
      assert r[..m] == [buf[0]] + t[..m - 1];
      ReplacePlainPrefix(buf[1..], f, m - 1);
      if '<' !in r[..m] {
        assert buf[..m] == [buf[0]] + buf[1..][..m - 1];
      }
    }
  }

  lemma {:induction false} ReplaceFormsPlainPrefix(buf: Bytes, forms: seq<Bytes>, m: nat)
    requires NonEmpty(forms) && m <= |ReplaceForms(buf, forms)|
    requires '<' !in ReplaceForms(buf, forms)[..m]
    ensures m <= |buf| && buf[..m] == ReplaceForms(buf, forms)[..m]
    decreases |forms|
  {
    if forms != [] {
      ReplaceFormsPlainPrefix(Replace(buf, forms[0]), forms[1..], m);
      ReplacePlainPrefix(buf, forms[0], m);
    }
  }

  /** A result without a bracket is the input itself. */
  lemma {:induction false} PlainReplaceIsWhole(buf: Bytes, f: Bytes)
    requires f != []
    ensures '<' !in Replace(buf, f) ==> Replace(buf, f) == buf
  {
    var r := Replace(buf, f);
    if |buf| < |f| {
    } else if buf[..|f|] == f {
      assert r[0] == REDACTED[0];
    } else {
      assert r[1..] == Replace(buf[1..], f);
      PlainReplaceIsWhole(buf[1..], f);
    }
  }

  lemma {:induction false} PlainReplaceFormsIsWhole(buf: Bytes, forms: seq<Bytes>)
    requires NonEmpty(forms)
    ensures '<' !in ReplaceForms(buf, forms) ==> ReplaceForms(buf, forms) == buf
    decreases |forms|
  {
    if forms != [] {
      PlainReplaceFormsIsWhole(Replace(buf, forms[0]), forms[1..]);
      PlainReplaceIsWhole(buf, forms[0]);
    }
  }

  /** Replacing one form never brings another one into being. */
  lemma {:induction false} ReplaceKeepsAbsent(buf: Bytes, f: Bytes, g: Bytes, i: int)
    requires f != [] && Hidable(g)
    requires g == f || !Occurs(g, buf)
    ensures !At(Replace(buf, f), i, g)
  {
    if 0 <= i && |buf| >= |f| {
      if buf[..|f|] == f {
        var t := Replace(buf[|f|..], f);
        assert buf == buf[..|f|] + buf[|f|..];
        AbsentInParts(buf[..|f|], buf[|f|..], g);
        ReplaceKeepsAbsent(buf[|f|..], f, g, i - |REDACTED|);
        AtConcat(REDACTED, t, i, g);
        NothingAcrossBracket(t, |REDACTED| - i, g);
      } else {
        var t := Replace(buf[1..], f);
        assert buf == buf[..1] + buf[1..];
        AbsentInParts(buf[..1], buf[1..], g);
        ReplaceKeepsAbsent(buf[1..], f, g, i - 1);
        AtConcat([buf[0]], t, i, g);
        if i == 0 {
          NoMatchAtHead(buf, f, g);
        }
      }
    }
  }

  /** A form cannot end the placeholder and go on: it has no closing bracket. */
  lemma NothingAcrossBracket(t: Bytes, k: int, g: Bytes)
    requires '>' !in g
    ensures !AcrossSeam(REDACTED, t, k, g)
  {
    if 0 < k < |g| && k <= |REDACTED| {
      assert REDACTED[|REDACTED| - k..][k - 1] == '>';
      assert g[..k][k - 1] == g[k - 1];
    }
  }

  lemma NoMatchAtHead(buf: Bytes, f: Bytes, g: Bytes)
    requires f != [] && Hidable(g) && |buf| >= |f| && buf[..|f|] != f
    requires g == f || !Occurs(g, buf)
    ensures !At(Replace(buf, f), 0, g)
  {
    var r := Replace(buf, f);
    assert !At(buf, 0, g);
    assert |g| <= |buf| ==> buf[0..|g|] == buf[..|g|];
    if |g| <= |r| {
      assert r[0..|g|] == r[..|g|];
      ReplacePlainPrefix(buf, f, |g|);
    }
  }

  lemma {:induction false} ReplaceFormsClean(buf: Bytes, forms: seq<Bytes>, g: Bytes)
    requires NonEmpty(forms) && Hidable(g)
    requires g in forms || !Occurs(g, buf)
    ensures !Occurs(g, ReplaceForms(buf, forms))
    decreases |forms|
  {
    if forms != [] {
      if g == forms[0] || !Occurs(g, buf) {
        forall i ensures !At(Replace(buf, forms[0]), i, g) {
          ReplaceKeepsAbsent(buf, forms[0], g, i);
        }
      }
      ReplaceFormsClean(Replace(buf, forms[0]), forms[1..], g);
    }
  }

  /** No longer start than the overlap stands at the end of the buffer. */
  lemma {:induction false} OverlapIsLongest(buf: Bytes, f: Bytes, k: nat)
    requires f != [] && Overlap(buf, f) < k < |f|
    ensures !EndsWith(buf, f[..k])
  {
    if k <= |buf| {
      OverlapFromIsLongest(buf, f, Min(|f| - 1, |buf|), k);
    }
  }

  lemma {:induction false} OverlapFromIsLongest(buf: Bytes, f: Bytes, top: nat, k: nat)
    requires top <= |f| && OverlapFrom(buf, f, top) < k <= top
    ensures !EndsWith(buf, f[..k])
  {
    if k < top {
      OverlapFromIsLongest(buf, f, top - 1, k);
    }
  }

  lemma {:induction false} HeldCoversOverlap(buf: Bytes, forms: seq<Bytes>, f: Bytes)
    requires NonEmpty(forms) && f in forms
    ensures Overlap(buf, f) <= HeldLength(buf, forms)
  {
    if f != forms[|forms| - 1] {
      HeldCoversOverlap(buf, forms[..|forms| - 1], f);
    }
  }

  // ---- no key leaves -------------------------------------------------------

  /** What was sent together with what is held has no form in it, and no form can have
      started before what is held. */
  ghost predicate Clean(f: Bytes, sent: Bytes, held: Bytes) {
    && !Occurs(f, sent + held)
    && forall k :: |held| < k < |f| ==> !EndsWith(sent + held, f[..k])
  }

  lemma StepKeepsClean(forms: seq<Bytes>, sent: Bytes, held: Bytes, chunk: Bytes, f: Bytes)
    requires NonEmpty(forms) && f in forms && Hidable(f) && Clean(f, sent, held)
    ensures var (out, held') := Step(forms, held, chunk); Clean(f, sent + out, held')
  {
    var (out, held') := Step(forms, held, chunk);
    Assoc(sent, out, held');
    forall i ensures !At(sent + ReplaceForms(held + chunk, forms), i, f) {
      NoFormAt(forms, sent, held, chunk, f, i);
    }
    forall k | |held'| < k < |f| ensures !EndsWith(sent + ReplaceForms(held + chunk, forms), f[..k]) {
      StartsAreHeld(forms, sent, held, chunk, f, k);
    }
  }

  lemma NoFormAt(forms: seq<Bytes>, sent: Bytes, held: Bytes, chunk: Bytes, f: Bytes, i: int)
    requires NonEmpty(forms) && f in forms && Hidable(f) && Clean(f, sent, held)
    ensures !At(sent + ReplaceForms(held + chunk, forms), i, f)
  {
    var buf := ReplaceForms(held + chunk, forms);
    ReplaceFormsClean(held + chunk, forms, f);
    AtConcat(sent, buf, i, f);
    AtConcat(sent, held, i, f);
    assert !At(sent + held, i, f) && !At(buf, i - |sent|, f);
    if 0 <= i < |sent| < i + |f| {
      NothingAcrossSeam(forms, sent, held, chunk, f, |sent| - i);
    }
  }

  /** No form stands across what was sent and the new buffer. */
  lemma NothingAcrossSeam(forms: seq<Bytes>, sent: Bytes, held: Bytes, chunk: Bytes, f: Bytes, k: nat)
    requires NonEmpty(forms) && Hidable(f) && Clean(f, sent, held) && 0 < k < |f|
    ensures !AcrossSeam(sent, ReplaceForms(held + chunk, forms), k, f)
  {
    var buf := ReplaceForms(held + chunk, forms);
    if AcrossSeam(sent, buf, k, f) {
      var m := |f| - k;
      assert '<' !in f[k..];
      ReplaceFormsPlainPrefix(held + chunk, forms, m);
      SeamWasThere(sent, held, chunk, f, k);
    }
  }

  lemma SeamWasThere(sent: Bytes, held: Bytes, chunk: Bytes, f: Bytes, k: nat)
    requires 0 < k < |f| && AcrossSeam(sent, held + chunk, k, f)
    ensures Occurs(f, sent + held)
         || exists j :: |held| < j < |f| && EndsWith(sent + held, f[..j])
  {
    var m := |f| - k;
    if m <= |held| {
      assert held[..m] == (held + chunk)[..m];
      AtConcat(sent, held, |sent| - k, f);
      assert At(sent + held, |sent| - k, f);
    } else {
      var p := f[..k + |held|];
      assert held == (held + chunk)[..m][..|held|] == p[k..];
      assert p[..k] == f[..k];
      EndsWithConcat(sent, held, p);
      assert EndsWith(sent + held, f[..k + |held|]);
    }
  }

  /** A start of a form longer than what is held would have been there before the chunk. */
  lemma StartsAreHeld(forms: seq<Bytes>, sent: Bytes, held: Bytes, chunk: Bytes, f: Bytes, k: nat)
    requires NonEmpty(forms) && f in forms && Hidable(f) && Clean(f, sent, held)
    requires HeldLength(ReplaceForms(held + chunk, forms), forms) < k < |f|
    ensures !EndsWith(sent + ReplaceForms(held + chunk, forms), f[..k])
  {
    var buf := ReplaceForms(held + chunk, forms);
    HeldCoversOverlap(buf, forms, f);
    EndsWithConcat(sent, buf, f[..k]);
    if k <= |buf| {
      OverlapIsLongest(buf, f, k);
    } else if '<' in buf {
      assert forall c :: c in f[..k][k - |buf|..] ==> c in f;
    } else {
      PlainReplaceFormsIsWhole(held + chunk, forms);
      StartNotFromSent(sent, held, chunk, f, k);
    }
  }

  lemma StartNotFromSent(sent: Bytes, held: Bytes, chunk: Bytes, f: Bytes, k: nat)
    requires Clean(f, sent, held) && |held + chunk| < k < |f|
    ensures !EndsWith(sent + (held + chunk), f[..k])
  {
    var j := k - |held + chunk|;
    EndsWithConcat(sent, held + chunk, f[..k]);
    if held + chunk == f[..k][j..] {
      assert !EndsWith(sent + held, f[..j + |held|]);
      StartBeforeChunk(sent, held, chunk, f, j);
    }
  }

  lemma StartBeforeChunk(sent: Bytes, held: Bytes, chunk: Bytes, f: Bytes, j: nat)
    requires j + |held| + |chunk| < |f|
    requires held + chunk == f[..j + |held| + |chunk|][j..]
    ensures EndsWith(sent + held, f[..j + |held|])
       <==> EndsWith(sent, f[..j + |held| + |chunk|][..j])
  {
    var p := f[..j + |held|];
    assert held == (held + chunk)[..|held|] == p[j..];
    assert p[..j] == f[..j + |held| + |chunk|][..j];
    EndsWithConcat(sent, held, p);
    assert j == 0 ==> EndsWith(sent, p[..0]) && held == p;
  }

  lemma {:induction false} RunIsClean(forms: seq<Bytes>, chunks: seq<Bytes>, f: Bytes)
    requires NonEmpty(forms) && f in forms && Hidable(f)
    ensures var (sent, held) := Run(forms, chunks); Clean(f, sent, held)
  {
    if chunks != [] {
      RunIsClean(forms, chunks[..|chunks| - 1], f);
      var (sent, held) := Run(forms, chunks[..|chunks| - 1]);
      StepKeepsClean(forms, sent, held, chunks[|chunks| - 1], f);
    }
  }

  /** Whatever the chunking, no key form reaches the harness. */
  lemma NoKeyLeaves(forms: seq<Bytes>, chunks: seq<Bytes>)
    requires NonEmpty(forms)
    requires forall i :: 0 <= i < |forms| ==> Hidable(forms[i])
    ensures forall i :: 0 <= i < |forms| ==> !Occurs(forms[i], Relayed(forms, chunks))
  {
    var (sent, held) := Run(forms, chunks);
    forall i | 0 <= i < |forms| ensures !Occurs(forms[i], sent + held) && !Occurs(forms[i], held) {
      RunIsClean(forms, chunks, forms[i]);
      AbsentInParts(sent, held, forms[i]);
    }
    ReplaceFormsAbsent(held, forms);
  }

  /** What is held could be the start of a form, and is less than all of it: nothing else waits. */
  lemma HeldIsAStart(forms: seq<Bytes>, chunks: seq<Bytes>)
    requires NonEmpty(forms)
    ensures var held := Run(forms, chunks).1;
            held == [] || exists i :: 0 <= i < |forms| && |held| < |forms[i]| && held == forms[i][..|held|]
  {
    if chunks != [] {
      var (sent, held) := Run(forms, chunks[..|chunks| - 1]);
      HeldByAForm(ReplaceForms(held + chunks[|chunks| - 1], forms), forms);
    }
  }

  lemma {:induction false} HeldByAForm(buf: Bytes, forms: seq<Bytes>)
    requires NonEmpty(forms)
    ensures var h := HeldLength(buf, forms);
            h == 0 || exists i :: 0 <= i < |forms| && h < |forms[i]| && EndsWith(buf, forms[i][..h])
  {
    if forms != [] {
      var h := HeldLength(buf, forms[..|forms| - 1]);
      HeldByAForm(buf, forms[..|forms| - 1]);
      if h != 0 {
        var i :| 0 <= i < |forms| - 1 && h < |forms[i]| && EndsWith(buf, forms[..|forms| - 1][i][..h]);
        assert forms[..|forms| - 1][i] == forms[i];
      }
    }
  }

  /** No form occurs in the bytes. */
  ghost predicate NoneIn(forms: seq<Bytes>, s: Bytes) {
    forall i :: 0 <= i < |forms| ==> !Occurs(forms[i], s)
  }

  lemma NoneInParts(forms: seq<Bytes>, a: Bytes, b: Bytes)
    requires NoneIn(forms, a + b)
    ensures NoneIn(forms, a) && NoneIn(forms, b)
  {
    forall i | 0 <= i < |forms| ensures !Occurs(forms[i], a) && !Occurs(forms[i], b) {
      AbsentInParts(a, b, forms[i]);
    }
  }

  /** A stream that holds no form passes unchanged, whatever the chunking. */
  lemma CleanStreamUnchanged(forms: seq<Bytes>, chunks: seq<Bytes>)
    requires NonEmpty(forms) && NoneIn(forms, Flatten(chunks))
    ensures Relayed(forms, chunks) == Flatten(chunks)
  {
    CleanRun(forms, chunks);
    var (sent, held) := Run(forms, chunks);
    NoneInParts(forms, sent, held);
    ReplaceFormsAbsent(held, forms);
  }

  lemma {:induction false} CleanRun(forms: seq<Bytes>, chunks: seq<Bytes>)
    requires NonEmpty(forms) && NoneIn(forms, Flatten(chunks))
    ensures var (sent, held) := Run(forms, chunks); sent + held == Flatten(chunks)
  {
    if chunks != [] {
      var before := chunks[..|chunks| - 1];
      var chunk := chunks[|chunks| - 1];
      NoneInParts(forms, Flatten(before), chunk);
      CleanRun(forms, before);
      var (sent, held) := Run(forms, before);
      CleanStep(forms, sent, held, chunk);
    }
  }

  lemma CleanStep(forms: seq<Bytes>, sent: Bytes, held: Bytes, chunk: Bytes)
    requires NonEmpty(forms) && NoneIn(forms, (sent + held) + chunk)
    ensures var (out, held') := Step(forms, held, chunk); (sent + out) + held' == (sent + held) + chunk
  {
    Assoc(sent, held, chunk);
    NoneInParts(forms, sent, held + chunk);
    ReplaceFormsAbsent(held + chunk, forms);
    var (out, held') := Step(forms, held, chunk);
    Assoc(sent, out, held');
  }

  // ---- one form: the chunking does not matter ------------------------------

  /** Bytes before the longest possible start of `f` at the end of a replaced buffer are
      final, whatever follows. */
  ghost predicate CutFinal(x: Bytes, f: Bytes, rest: Bytes)
    requires f != []
  {
    var buf := Replace(x, f);
    var cut := |buf| - Overlap(buf, f);
    Replace(x + rest, f) == buf[..cut] + Replace(buf[cut..] + rest, f)
  }

  lemma {:induction false} CutIsFinal(x: Bytes, f: Bytes, rest: Bytes)
    requires f != [] && '<' !in f && '>' !in f
    ensures CutFinal(x, f, rest)
  {
    if |x| < |f| {
      ShortCutIsFinal(x, f, rest);
    } else if x[..|f|] == f {
      CutIsFinal(x[|f|..], f, rest);
      CutPastMatch(x, f, rest);
    } else {
      CutIsFinal(x[1..], f, rest);
      CutPastByte(x, f, rest);
    }
  }

  lemma ShortCutIsFinal(x: Bytes, f: Bytes, rest: Bytes)
    requires f != [] && |x| < |f|
    ensures CutFinal(x, f, rest)
  {
    var cut := |x| - Overlap(x, f);
    forall i | 0 <= i < cut ensures x[i..] != f[..|x| - i] {
      OverlapIsLongest(x, f, |x| - i);
    }
    NoEarlyMatch(x, f, rest, cut);
  }

  lemma CutPastMatch(x: Bytes, f: Bytes, rest: Bytes)
    requires f != [] && '>' !in f && |x| >= |f| && x[..|f|] == f && CutFinal(x[|f|..], f, rest)
    ensures CutFinal(x, f, rest)
  {
    SliceConcat(x, rest, |f|);
    ReplaceUnfolds(x, f);
    ReplaceUnfolds(x + rest, f);
    OverlapPastBracket(Replace(x[|f|..], f), f);
    CutCarries(REDACTED, x[|f|..], f, rest);
  }

  lemma CutPastByte(x: Bytes, f: Bytes, rest: Bytes)
    requires f != [] && '<' !in f && |x| >= |f| && x[..|f|] != f && CutFinal(x[1..], f, rest)
    ensures CutFinal(x, f, rest)
  {
    SliceConcat(x, rest, |f|);
    SliceConcat(x, rest, 1);
    ReplaceUnfolds(x, f);
    ReplaceUnfolds(x + rest, f);
    OverlapPastByte(x, f);
    CutCarries([x[0]], x[1..], f, rest);
  }

  lemma ReplaceUnfolds(y: Bytes, f: Bytes)
    requires 0 < |f| <= |y|
    ensures Replace(y, f) == if y[..|f|] == f then REDACTED + Replace(y[|f|..], f) else [y[0]] + Replace(y[1..], f)
  {
  }

  /** The cut of a buffer whose first part `p` is final is the cut of the rest. */
  lemma CutCarries(p: Bytes, x: Bytes, f: Bytes, rest: Bytes)
    requires f != [] && CutFinal(x, f, rest)
    requires Overlap(p + Replace(x, f), f) == Overlap(Replace(x, f), f)
    ensures var buf := p + Replace(x, f);
            var cut := |buf| - Overlap(buf, f);
            p + Replace(x + rest, f) == buf[..cut] + Replace(buf[cut..] + rest, f)
  {
    var tail := Replace(x, f);
    var o := Overlap(tail, f);
    var end := Replace(tail[|tail| - o..] + rest, f);
    assert Replace(x + rest, f) == tail[..|tail| - o] + end;
    CutAfter(p, tail, o, end);
  }

  lemma CutAfter(p: Bytes, tail: Bytes, o: nat, end: Bytes)
    requires o <= |tail|
    ensures var (buf, c) := (p + tail, |tail| - o);
            buf[..|buf| - o] + end == p + (tail[..c] + end) && buf[|buf| - o..] == tail[c..]
  {
    var c := |tail| - o;
    assert (p + tail)[..|p| + c] == p + tail[..c];
    assert (p + tail)[|p| + c..] == tail[c..];
    Assoc(p, tail[..c], end);
  }

  /** No match starts in the first n bytes of a buffer shorter than the form, when none of
      them begins a start of the form that reaches the buffer's end. */
  lemma {:induction false} NoEarlyMatch(x: Bytes, f: Bytes, rest: Bytes, n: nat)
    requires 0 < |f| && |x| < |f| && n <= |x|
    requires forall i :: 0 <= i < n ==> x[i..] != f[..|x| - i]
    ensures Replace(x + rest, f) == x[..n] + Replace(x[n..] + rest, f)
  {
    if n == 0 {
      assert x[..0] == [] && x[0..] == x;
    } else {
      SliceConcat(x, rest, 1);
      forall i | 0 <= i < n - 1 ensures x[1..][i..] != f[..|x[1..]| - i] {
        assert x[1..][i..] == x[i + 1..];
      }
      NoEarlyMatch(x[1..], f, rest, n - 1);
      assert x[1..][n - 1..] == x[n..];
      assert x[..n] == [x[0]] + x[1..][..n - 1];
      Assoc([x[0]], x[1..][..n - 1], Replace(x[n..] + rest, f));
      assert x[0..] == x;
      FirstByteStays(x, f, rest);
    }
  }

  lemma NotAtHead(x: Bytes, f: Bytes, rest: Bytes)
    requires |x| < |f| <= |x + rest| && x != f[..|x|]
    ensures (x + rest)[..|f|] != f
  {
    assert (x + rest)[..|f|][..|x|] == x;
  }

  lemma ShortStays(x: Bytes, f: Bytes, rest: Bytes)
    requires f != [] && x != [] && |x + rest| < |f|
    ensures Replace(x + rest, f) == [x[0]] + Replace(x[1..] + rest, f)
  {
    assert x + rest == [x[0]] + (x[1..] + rest);
  }

  lemma FirstByteStays(x: Bytes, f: Bytes, rest: Bytes)
    requires 0 < |x| < |f| && x != f[..|x|]
    ensures Replace(x + rest, f) == [x[0]] + Replace(x[1..] + rest, f)
  {
    if |x + rest| >= |f| {
      NotAtHead(x, f, rest);
      ReplaceUnfolds(x + rest, f);
      SliceConcat(x, rest, 1);
    } else {
      ShortStays(x, f, rest);
    }
  }

  lemma SameOverlap(s: Bytes, b: Bytes, f: Bytes)
    requires f != []
    requires forall k :: 0 <= k < |f| ==> (EndsWith(s, f[..k]) <==> EndsWith(b, f[..k]))
    ensures Overlap(s, f) == Overlap(b, f)
  {
    var r, q := Overlap(s, f), Overlap(b, f);
    assert EndsWith(b, f[..r]) && EndsWith(s, f[..q]);
    if r < q {
      OverlapIsLongest(s, f, q);
    } else if q < r {
      OverlapIsLongest(b, f, r);
    }
  }

  /** The longest start never reaches back over a closing bracket. */
  lemma OverlapPastBracket(b: Bytes, f: Bytes)
    requires f != [] && '>' !in f
    ensures Overlap(REDACTED + b, f) == Overlap(b, f)
  {
    forall k | 0 <= k < |f| ensures EndsWith(REDACTED + b, f[..k]) <==> EndsWith(b, f[..k]) {
      EndsWithConcat(REDACTED, b, f[..k]);
      if k > |b| {
        var j := k - |b|;
        assert f[..k][..j][j - 1] == f[j - 1];
        assert j <= |REDACTED| ==> REDACTED[|REDACTED| - j..][j - 1] == '>';
      }
    }
    SameOverlap(REDACTED + b, b, f);
  }

  /** Past a byte where no match starts, in a buffer at least as long as the form, the
      longest start is that of the rest. */
  lemma OverlapPastByte(x: Bytes, f: Bytes)
    requires f != [] && '<' !in f && |x| >= |f| && x[..|f|] != f
    ensures Overlap([x[0]] + Replace(x[1..], f), f) == Overlap(Replace(x[1..], f), f)
  {
    var b := Replace(x[1..], f);
    var s := Replace(x, f);
    forall k | 0 <= k < |f| ensures EndsWith(s, f[..k]) <==> EndsWith(b, f[..k]) {
      EndsWithConcat([x[0]], b, f[..k]);
      if k > |b| && EndsWith(s, f[..k]) {
        assert s == f[..k];
        PlainReplaceIsWhole(x, f);
      }
    }
    SameOverlap(s, b, f);
  }

  lemma OneForm(buf: Bytes, f: Bytes)
    requires f != []
    ensures ReplaceForms(buf, [f]) == Replace(buf, f) && HeldLength(buf, [f]) == Overlap(buf, f)
  {
    assert [f][1..] == [] && [f][..0] == [];
    assert ReplaceForms(Replace(buf, f), []) == Replace(buf, f);
    assert HeldLength(buf, []) == 0;
  }

  lemma {:induction false} RunRefinesReplace(f: Bytes, chunks: seq<Bytes>, rest: Bytes)
    requires f != [] && '<' !in f && '>' !in f
    ensures var (sent, held) := Run([f], chunks);
            Replace(Flatten(chunks) + rest, f) == sent + Replace(held + rest, f)
    decreases |chunks|
  {
    if chunks != [] {
      var before := chunks[..|chunks| - 1];
      var chunk := chunks[|chunks| - 1];
      var (sent, held) := Run([f], before);
      RunRefinesReplace(f, before, chunk + rest);
      Assoc(Flatten(before), chunk, rest);
      Assoc(held, chunk, rest);
      StepRefinesReplace(f, sent, held, chunk, rest);
    } else {
      assert Flatten(chunks) + rest == rest && [] + rest == rest;
      assert [] + Replace(rest, f) == Replace(rest, f);
    }
  }

  lemma StepRefinesReplace(f: Bytes, sent: Bytes, held: Bytes, chunk: Bytes, rest: Bytes)
    requires f != [] && '<' !in f && '>' !in f
    ensures var (out, held') := Step([f], held, chunk);
            sent + Replace((held + chunk) + rest, f) == (sent + out) + Replace(held' + rest, f)
  {
    var buf := Replace(held + chunk, f);
    CutIsFinal(held + chunk, f, rest);
    OneForm(held + chunk, f);
    OneForm(buf, f);
    var cut := |buf| - Overlap(buf, f);
    Assoc(sent, buf[..cut], Replace(buf[cut..] + rest, f));
  }

  /** With one form the relayed bytes are the whole stream with the form replaced,
      however the stream is cut into chunks. */
  lemma OneFormAnyChunking(f: Bytes, chunks: seq<Bytes>)
    requires f != [] && '<' !in f && '>' !in f
    ensures Relayed([f], chunks) == Replace(Flatten(chunks), f)
  {
    RunRefinesReplace(f, chunks, []);
    var (sent, held) := Run([f], chunks);
    assert Flatten(chunks) + [] == Flatten(chunks) && held + [] == held;
    OneForm(held, f);
  }

  // ---- nested forms --------------------------------------------------------

  /** A last byte that no form goes on from holds nothing back. */
  lemma {:induction false} NothingHeld(buf: Bytes, forms: seq<Bytes>)
    requires NonEmpty(forms) && buf != []
    requires forall i :: 0 <= i < |forms| ==> buf[|buf| - 1] !in forms[i][..|forms[i]| - 1]
    ensures HeldLength(buf, forms) == 0
  {
    if forms != [] {
      NothingHeld(buf, forms[..|forms| - 1]);
      OverlapByte(buf, forms[|forms| - 1], Overlap(buf, forms[|forms| - 1]));
    }
  }

  lemma OverlapByte(buf: Bytes, f: Bytes, k: nat)
    requires buf != [] && k < |f| && EndsWith(buf, f[..k])
    ensures k == 0 || buf[|buf| - 1] in f[..|f| - 1]
  {
    if k > 0 {
      assert buf[|buf| - 1] == f[..k][k - 1];
      assert f[k - 1] == f[..|f| - 1][k - 1];
    }
  }

  lemma StepSendsAll(forms: seq<Bytes>, sent: Bytes, chunks: seq<Bytes>, chunk: Bytes, out: Bytes)
    requires NonEmpty(forms) && Run(forms, chunks) == (sent, []) && ReplaceForms(chunk, forms) == out
    requires out != [] && forall i :: 0 <= i < |forms| ==> out[|out| - 1] !in forms[i][..|forms[i]| - 1]
    ensures Run(forms, chunks + [chunk]) == (sent + out, [])
  {
    assert [] + chunk == chunk && (chunks + [chunk])[..|chunks|] == chunks;
    NothingHeld(out, forms);
    assert out[..|out|] == out && out[|out|..] == [];
  }

  lemma Short(buf: Bytes, f: Bytes)
    requires |buf| < |f|
    ensures Replace(buf, f) == buf
  {
  }

  lemma TwoForms(buf: Bytes, f: Bytes, g: Bytes)
    requires f != [] && g != []
    ensures ReplaceForms(buf, [f, g]) == Replace(Replace(buf, f), g)
  {
    assert [f, g][1..] == [g];
    OneForm(Replace(buf, f), g);
  }

  const OUTER: Bytes := "mnop"
  const INNER: Bytes := "no"

  lemma AbsentByFirst(f: Bytes, s: Bytes)
    requires f != [] && f[0] !in s
    ensures !Occurs(f, s)
  {
    forall i | 0 <= i && i + |f| <= |s| ensures !At(s, i, f) {
      assert s[i..i + |f|][0] == s[i];
    }
  }

  lemma NestedWhole()
    ensures ReplaceForms(OUTER, [OUTER, INNER]) == REDACTED
  {
    WholeIsOne(OUTER);
    TwoForms(OUTER, OUTER, INNER);
    AbsentByFirst(INNER, REDACTED);
    ReplaceAbsent(REDACTED, INNER);
  }

  lemma NestedCut()
    ensures ReplaceForms("mno", [OUTER, INNER]) == "m" + REDACTED
    ensures ReplaceForms("p", [OUTER, INNER]) == "p"
  {
    WholeIsOne(INNER);
    TwoForms("mno", OUTER, INNER);
    assert "mno"[1..] == INNER && "mno"[..2] == "mn";
    assert Replace("mno", INNER) == ['m'] + Replace("mno"[1..], INNER);
    TwoForms("p", OUTER, INNER);
  }

  /** Neither form goes on from `out`'s last byte. */
  predicate Stops(out: Bytes) {
    out != [] && out[|out| - 1] !in OUTER[..|OUTER| - 1] && out[|out| - 1] !in INNER[..|INNER| - 1]
  }

  lemma NestedStep(sent: Bytes, chunks: seq<Bytes>, chunk: Bytes, out: Bytes, sent': Bytes, chunks': seq<Bytes>)
    requires Run([OUTER, INNER], chunks) == (sent, []) && ReplaceForms(chunk, [OUTER, INNER]) == out && Stops(out)
    requires sent' == sent + out && chunks' == chunks + [chunk]
    ensures Run([OUTER, INNER], chunks') == (sent', []) && Relayed([OUTER, INNER], chunks') == sent'
  {
    StepSendsAll([OUTER, INNER], sent, chunks, chunk, out);
    TwoForms([], OUTER, INNER);
    assert sent' + [] == sent';
  }

  lemma NestedStops()
    ensures Stops(REDACTED) && Stops("m" + REDACTED) && Stops("p")
  {
    assert OUTER[..3] == "mno" && INNER[..1] == "n";
  }

  /** With a form inside another the chunks do matter: whole, the longer form goes out as one
      placeholder; cut after the inner form, that one is replaced first and the rest of the
      longer form goes out around it. (`NoKeyLeaves` still holds.) */
  lemma NestedFormsDependOnChunks()
    ensures Relayed([OUTER, INNER], [OUTER]) == REDACTED
    ensures Relayed([OUTER, INNER], ["mno", "p"]) == "m" + REDACTED + "p"
  {
    NestedStops();
    NestedWhole();
    NestedCut();
    NestedStep([], [], OUTER, REDACTED, REDACTED, [OUTER]);
    NestedStep([], [], "mno", "m" + REDACTED, "m" + REDACTED, ["mno"]);
    NestedStep("m" + REDACTED, ["mno"], "p", "p", "m" + REDACTED + "p", ["mno", "p"]);
  }

  lemma WholeIsOne(f: Bytes)
    requires f != []
    ensures Replace(f, f) == REDACTED
  {
    assert f[..|f|] == f && f[|f|..] == [];
    assert Replace([], f) == [];
    assert REDACTED + [] == REDACTED;
  }
}
