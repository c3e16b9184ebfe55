/** When the redactor's output depends on the chunks: for the several forms of a key ring,
    exactly which sets of forms make it a replacement of the whole stream. */
module FormChunking {
  import opened Common
  import opened ByteStrings
  import opened Redaction

  ghost predicate AllHidable(forms: seq<Bytes>) { forall i :: 0 <= i < |forms| ==> Hidable(forms[i]) }

  /** `g` and `f` can overlap so that `g` ends after the first k bytes of `f`, before its end. */
  predicate EndsAt(g: Bytes, f: Bytes, k: nat) {
    0 < k < |f| && var m := Min(k, |g|); g[|g| - m..] == f[k - m..k]
  }

  ghost predicate EndsInside(g: Bytes, f: Bytes) { exists k :: EndsAt(g, f, k) }

  /** An earlier form is part of this one, so this one is never found. */
  ghost predicate Shadowed(forms: seq<Bytes>, j: int)
    requires 0 <= j < |forms|
  {
    exists i :: 0 <= i < j && Occurs(forms[i], forms[j])
  }

  /** No form can end inside one that is replaced before it. */
  ghost predicate Independent(forms: seq<Bytes>) {
    forall i, j :: 0 <= i < j < |forms| && !Shadowed(forms, i) && !Shadowed(forms, j) ==>
      !EndsInside(forms[j], forms[i])
  }

  ghost predicate ChunksNeverMatter(forms: seq<Bytes>)
    requires NonEmpty(forms)
  {
    forall chunks :: Relayed(forms, chunks) == ReplaceForms(Flatten(chunks), forms)
  }

  // ---- replacing, part by part ---------------------------------------------

  /** No match starts in the first t bytes. */
  ghost predicate NoStart(s: Bytes, f: Bytes, t: nat) { forall i :: 0 <= i < t ==> !At(s, i, f) }

  lemma AtDrop(s: Bytes, f: Bytes, n: nat, i: nat)
    requires n <= |s|
    ensures At(s[n..], i, f) <==> At(s, n + i, f)
  {
    assert s == s[..n] + s[n..];
    AtConcat(s[..n], s[n..], n + i, f);
  }

  lemma ReplaceByte(p: Bytes, g: Bytes)
    requires g != [] && p != []
    ensures |p| < |g| || p[..|g|] != g ==> Replace(p, g) == [p[0]] + Replace(p[1..], g)
  {
    if |p| < |g| {
      assert p == [p[0]] + p[1..];
    }
  }

  /** Bytes where no match starts stay. */
  lemma {:induction false} SkipPrefix(s: Bytes, f: Bytes, t: nat)
    requires f != [] && t <= |s| && NoStart(s, f, t)
    ensures Replace(s, f) == s[..t] + Replace(s[t..], f)
    decreases t
  {
    if t == 0 {
      assert s[..0] == [] && s[0..] == s;
    } else if |s| < |f| {
      assert s == s[..t] + s[t..];
    } else {
      var s' := s[1..];
      forall i | 0 <= i < t - 1 ensures !At(s', i, f) {
        AtDrop(s, f, 1, i);
      }
      SkipPrefix(s', f, t - 1);
      assert !At(s, 0, f);
      assert s[0..|f|] == s[..|f|];
      ReplaceByte(s, f);
      assert s'[t - 1..] == s[t..];
      assert s[..t] == [s[0]] + s'[..t - 1];
      Assoc([s[0]], s'[..t - 1], Replace(s[t..], f));
    }
  }

  /** The first place below `end` where `f` stands, or `end`. */
  ghost function FirstAt(s: Bytes, f: Bytes, from: nat, end: nat): (t: nat)
    requires from <= end
    ensures from <= t <= end && (t < end ==> At(s, t, f))
    ensures forall i :: from <= i < t ==> !At(s, i, f)
    decreases end - from
  {
    if from == end || At(s, from, f) then from else FirstAt(s, f, from + 1, end)
  }

  /** No form starts inside a placeholder. */
  lemma NotFromPlaceholder(x: Bytes, f: Bytes, i: nat)
    requires Hidable(f) && i < |REDACTED|
    ensures !At(REDACTED + x, i, f)
  {
    AtConcat(REDACTED, x, i, f);
    assert !At(REDACTED, i, f);
    NothingAcrossBracket(x, |REDACTED| - i, f);
  }

  /** A form that did not start a text does not start it after a replacement. */
  lemma HeadStays(u: Bytes, g: Bytes, w: Bytes, f: Bytes)
    requires g != [] && Hidable(f) && !At(u + w, 0, f) && u != []
    ensures !At(Replace(u, g) + w, 0, f)
  {
    var r := Replace(u, g);
    if |f| <= |r| {
      ReplacePlainPrefix(u, g, |f|);
      assert (r + w)[0..|f|] == r[..|f|];
      assert |f| <= |u| ==> (u + w)[0..|f|] == u[..|f|];
    } else {
      PlainReplaceIsWhole(u, g);
      assert |f| <= |r + w| ==> (r + w)[0..|f|][..|r|] == r;
    }
  }

  /** If no match starts in `u`, before `w`, none starts in what replacing makes of `u`. */
  lemma {:induction false} NoneStarts(u: Bytes, g: Bytes, w: Bytes, f: Bytes, i: nat)
    requires g != [] && Hidable(f) && NoStart(u + w, f, |u|)
    ensures i < |Replace(u, g)| ==> !At(Replace(u, g) + w, i, f)
    decreases |u|
  {
    if |u| >= |g| {
      if u[..|g|] == g {
        var (u', t) := (u[|g|..], Replace(u[|g|..], g));
        DropStarts(u, w, f, |g|);
        Assoc(REDACTED, t, w);
        if i < |REDACTED| {
          NotFromPlaceholder(t + w, f, i);
        } else {
          NoneStarts(u', g, w, f, i - |REDACTED|);
          AtConcat(REDACTED, t + w, i, f);
        }
      } else if i == 0 {
        HeadStays(u, g, w, f);
      } else {
        var t := Replace(u[1..], g);
        DropStarts(u, w, f, 1);
        Assoc([u[0]], t, w);
        NoneStarts(u[1..], g, w, f, i - 1);
        AtConcat([u[0]], t + w, i, f);
      }
    }
  }

  lemma DropStarts(u: Bytes, w: Bytes, f: Bytes, n: nat)
    requires n <= |u| && NoStart(u + w, f, |u|)
    ensures NoStart(u[n..] + w, f, |u[n..]|)
  {
    assert (u + w)[n..] == u[n..] + w;
    forall i | 0 <= i < |u[n..]| ensures !At(u[n..] + w, i, f) {
      AtDrop(u + w, f, n, i);
    }
  }

  /** Past the end of the last match nothing changes. */
  lemma {:induction false} ReplaceSplits(x: Bytes, g: Bytes, t: nat)
    requires g != [] && t <= |x| && forall i :: At(x, i, g) ==> i + |g| <= t
    ensures Replace(x, g) == Replace(x[..t], g) + x[t..]
    decreases |x|
  {
    if |x| < |g| {
      assert x == x[..t] + x[t..];
    } else {
      var n := if x[..|g|] == g then |g| else 1;
      assert x[0..|g|] == x[..|g|];
      if x[..|g|] == g {
        assert At(x, 0, g);
      }
      if n <= t {
        DropEnds(x, g, t, n);
        ReplaceSplits(x[n..], g, t - n);
        assert x[n..][..t - n] == x[..t][n..] && x[n..][t - n..] == x[t..];
        if x[..|g|] == g {
          SplitAtMatch(x, g, t);
        } else {
          SplitAtByte(x, g, t);
        }
      } else {
        assert !Occurs(g, x);
        ReplaceAbsent(x, g);
      }
    }
  }

  lemma DropEnds(x: Bytes, g: Bytes, t: nat, n: nat)
    requires n <= t <= |x| && forall i :: At(x, i, g) ==> i + |g| <= t
    ensures forall i :: At(x[n..], i, g) ==> i + |g| <= t - n
  {
    forall i | At(x[n..], i, g) ensures i + |g| <= t - n {
      AtDrop(x, g, n, i);
    }
  }

  lemma SplitAtMatch(x: Bytes, g: Bytes, t: nat)
    requires g != [] && |g| <= t <= |x| && x[..|g|] == g
    requires Replace(x[|g|..], g) == Replace(x[..t][|g|..], g) + x[t..]
    ensures Replace(x, g) == Replace(x[..t], g) + x[t..]
  {
    assert x[..t][..|g|] == g;
    Assoc(REDACTED, Replace(x[..t][|g|..], g), x[t..]);
  }

  lemma SplitAtByte(x: Bytes, g: Bytes, t: nat)
    requires g != [] && 1 <= t <= |x| && |g| <= |x| && x[..|g|] != g
    requires Replace(x[1..], g) == Replace(x[..t][1..], g) + x[t..]
    ensures Replace(x, g) == Replace(x[..t], g) + x[t..]
  {
    var p := x[..t];
    ReplaceByte(p, g);
    assert |g| <= t ==> p[..|g|] == x[..|g|];
    Assoc([x[0]], Replace(p[1..], g), x[t..]);
  }

  /** With one form: replacing early what is already there changes nothing later. */
  lemma {:induction false} ReplaceEarly(x: Bytes, g: Bytes, rest: Bytes)
    requires Hidable(g)
    ensures Replace(x + rest, g) == Replace(Replace(x, g) + rest, g)
    decreases |x|
  {
    if |x| >= |g| {
      assert (x + rest)[..|g|] == x[..|g|];
      if x[..|g|] == g {
        var x' := x[|g|..];
        var t := Replace(x', g) + rest;
        assert (x + rest)[|g|..] == x' + rest;
        ReplaceEarly(x', g, rest);
        Assoc(REDACTED, Replace(x', g), rest);
        forall i | 0 <= i < |REDACTED| ensures !At(REDACTED + t, i, g) {
          NotFromPlaceholder(t, g, i);
        }
        SkipPrefix(REDACTED + t, g, |REDACTED|);
        assert (REDACTED + t)[..|REDACTED|] == REDACTED && (REDACTED + t)[|REDACTED|..] == t;
      } else {
        var t := Replace(x[1..], g) + rest;
        assert (x + rest)[1..] == x[1..] + rest;
        ReplaceEarly(x[1..], g, rest);
        Assoc([x[0]], Replace(x[1..], g), rest);
        assert (x + rest)[0..|g|] == x[..|g|];
        HeadStays(x, g, rest, g);
        assert NoStart([x[0]] + t, g, 1);
        SkipPrefix([x[0]] + t, g, 1);
        assert ([x[0]] + t)[..1] == [x[0]] && ([x[0]] + t)[1..] == t;
      }
    }
  }

  /** A form replaced after `f` may as well be replaced before it, in what is already there:
      the first `t` bytes are left to it, and all else is the same. */
  lemma PairCommutes(x: Bytes, rest: Bytes, f: Bytes, g: Bytes) returns (t: nat, z: Bytes)
    requires Hidable(f) && Hidable(g) && !Occurs(f, x) && !EndsInside(g, f)
    ensures t <= |x| && Replace(x + rest, f) == x[..t] + z
    ensures Replace(Replace(x, g) + rest, f) == Replace(x[..t], g) + z
  {
    var s := x + rest;
    t := FirstAt(s, f, 0, |x|);
    var w := s[t..];
    z := Replace(w, f);
    SkipPrefix(s, f, t);
    assert s[..t] == x[..t] && w == x[t..] + rest && s == x[..t] + w;
    MatchesEndBefore(x, rest, f, g, t);
    ReplaceSplits(x, g, t);
    var p := Replace(x[..t], g);
    Assoc(p, x[t..], rest);
    forall i | 0 <= i < |p| ensures !At(p + w, i, f) {
      NoneStarts(x[..t], g, w, f, i);
    }
    SkipPrefix(p + w, f, |p|);
    assert (p + w)[..|p|] == p && (p + w)[|p|..] == w;
  }

  /** A part of a form, where the form stands. */
  lemma AtPart(s: Bytes, i: int, f: Bytes, lo: nat, hi: nat)
    requires At(s, i, f) && lo <= hi <= |f|
    ensures s[i + lo..i + hi] == f[lo..hi]
  {
    var part := s[i + lo..i + hi];
    assert s[i..i + |f|] == f;
    assert |part| == |f[lo..hi]|;
    forall j | 0 <= j < hi - lo ensures part[j] == f[lo..hi][j] {
      assert part[j] == s[i + lo + j] == s[i..i + |f|][lo + j];
    }
  }

  /** A match of `g` that reaches past the start of an `f` still to be completed ends in it. */
  lemma OverlapEnds(x: Bytes, rest: Bytes, f: Bytes, g: Bytes, t: nat, i: nat)
    requires !Occurs(f, x) && t < |x| && At(x + rest, t, f) && At(x, i, g) && t < i + |g|
    ensures EndsInside(g, f)
  {
    var k := i + |g| - t;
    var m := Min(k, |g|);
    AtConcat(x, rest, t, f);
    AtConcat(x, rest, i, g);
    assert !At(x, t, f);
    AtPart(x + rest, i, g, |g| - m, |g|);
    AtPart(x + rest, t, f, k - m, k);
    assert EndsAt(g, f, k);
  }

  /** Where `f` stands across the seam, no match of `g` reaches past its start. */
  lemma MatchesEndBefore(x: Bytes, rest: Bytes, f: Bytes, g: Bytes, t: nat)
    requires !Occurs(f, x) && !EndsInside(g, f) && g != []
    requires t <= |x| && (t < |x| ==> At(x + rest, t, f))
    ensures forall i :: At(x, i, g) ==> i + |g| <= t
  {
    forall i | At(x, i, g) ensures i + |g| <= t {
      if t < |x| && t < i + |g| {
        OverlapEnds(x, rest, f, g, t, i);
      }
    }
  }

  // ---- replacing several forms ---------------------------------------------

  lemma {:induction false} ReplaceFormsConcat(s: Bytes, a: seq<Bytes>, b: seq<Bytes>)
    requires NonEmpty(a) && NonEmpty(b)
    ensures NonEmpty(a + b) && ReplaceForms(s, a + b) == ReplaceForms(ReplaceForms(s, a), b)
    decreases |a|
  {
    if a == [] {
      assert a + b == b;
    } else {
      assert (a + b)[1..] == a[1..] + b && (a + b)[0] == a[0];
      ReplaceFormsConcat(Replace(s, a[0]), a[1..], b);
    }
  }

  lemma ReplaceFormsSnoc(s: Bytes, forms: seq<Bytes>, i: nat)
    requires NonEmpty(forms) && i < |forms|
    ensures ReplaceForms(s, forms[..i + 1]) == Replace(ReplaceForms(s, forms[..i]), forms[i])
  {
    assert forms[..i + 1] == forms[..i] + [forms[i]];
    ReplaceFormsConcat(s, forms[..i], [forms[i]]);
    OneForm(ReplaceForms(s, forms[..i]), forms[i]);
  }

  lemma ReplaceFormsSplit(s: Bytes, forms: seq<Bytes>, i: nat)
    requires NonEmpty(forms) && i <= |forms|
    ensures ReplaceForms(s, forms) == ReplaceForms(ReplaceForms(s, forms[..i]), forms[i..])
  {
    assert forms == forms[..i] + forms[i..];
    ReplaceFormsConcat(s, forms[..i], forms[i..]);
  }

  /** A form that occurs in what occurs in `s` occurs in `s`. */
  lemma OccursIn(h: Bytes, g: Bytes, s: Bytes)
    requires Occurs(h, g) && Occurs(g, s)
    ensures Occurs(h, s)
  {
    var i :| At(s, i, g);
    var j :| At(g, j, h);
    AtPart(s, i, g, j, j + |h|);
    assert At(s, i + j, h);
  }

  /** The forms that are not shadowed. */
  ghost function Live(forms: seq<Bytes>): (ls: seq<Bytes>)
    ensures NonEmpty(forms) ==> NonEmpty(ls)
    ensures AllHidable(forms) ==> AllHidable(ls)
  {
    if forms == [] then []
    else
      var init := Live(forms[..|forms| - 1]);
      if Shadowed(forms, |forms| - 1) then init else init + [forms[|forms| - 1]]
  }

  /** Replacing the shadowed forms does nothing. */
  lemma {:induction false} LiveSuffices(s: Bytes, forms: seq<Bytes>)
    requires AllHidable(forms)
    ensures ReplaceForms(s, forms) == ReplaceForms(s, Live(forms))
    decreases |forms|
  {
    if forms != [] {
      var (init, last) := (forms[..|forms| - 1], forms[|forms| - 1]);
      LiveSuffices(s, init);
      assert forms[..|init| + 1] == forms;
      ReplaceFormsSnoc(s, forms, |init|);
      if Shadowed(forms, |init|) {
        var i :| 0 <= i < |init| && Occurs(forms[i], last);
        assert init[i] == forms[i];
        ReplaceFormsClean(s, init, forms[i]);
        if Occurs(last, ReplaceForms(s, init)) {
          OccursIn(forms[i], last, ReplaceForms(s, init));
        }
        ReplaceAbsent(ReplaceForms(s, init), last);
      } else {
        ReplaceFormsConcat(s, Live(init), [last]);
        OneForm(ReplaceForms(s, Live(init)), last);
      }
    }
  }

  /** Which of the live forms stands where. */
  lemma {:induction false} LiveIs(forms: seq<Bytes>, n: nat, j: nat) returns (at: nat)
    requires n <= |forms| && j < |Live(forms[..n])|
    ensures at < n && !Shadowed(forms, at) && Live(forms[..n])[j] == forms[at] && |Live(forms[..at])| == j
  {
    var m := n - 1;
    assert forms[..n][..m] == forms[..m];
    assert Shadowed(forms[..n], m) <==> Shadowed(forms, m) by {
      assert forall i :: 0 <= i < n ==> forms[..n][i] == forms[i];
    }
    if j < |Live(forms[..m])| {
      at := LiveIs(forms, m, j);
    } else {
      at := m;
    }
  }

  lemma {:induction false} LiveGrows(forms: seq<Bytes>, m: nat, n: nat)
    requires m <= n <= |forms|
    ensures |Live(forms[..m])| <= |Live(forms[..n])|
  {
    if m < n {
      assert forms[..n][..n - 1] == forms[..n - 1];
      LiveGrows(forms, m, n - 1);
    }
  }

  ghost predicate PairwiseIndependent(ls: seq<Bytes>) {
    forall i, j :: 0 <= i < j < |ls| ==> !EndsInside(ls[j], ls[i])
  }

  lemma LiveIndependent(forms: seq<Bytes>)
    requires Independent(forms)
    ensures PairwiseIndependent(Live(forms))
  {
    assert forms[..|forms|] == forms;
    forall i, j | 0 <= i < j < |Live(forms)| ensures !EndsInside(Live(forms)[j], Live(forms)[i]) {
      var a := LiveIs(forms, |forms|, i);
      var b := LiveIs(forms, |forms|, j);
      if b <= a {
        LiveGrows(forms, b, a);
      }
    }
  }

  /** `PairCommutes`, past several forms. */
  lemma {:induction false} FormsCommute(hs: seq<Bytes>, x: Bytes, rest: Bytes, g: Bytes) returns (t: nat, z: Bytes)
    requires AllHidable(hs) && Hidable(g) && NoneIn(hs, x)
    requires forall i :: 0 <= i < |hs| ==> !EndsInside(g, hs[i])
    ensures t <= |x| && ReplaceForms(x + rest, hs) == x[..t] + z
    ensures ReplaceForms(Replace(x, g) + rest, hs) == Replace(x[..t], g) + z
    decreases |hs|
  {
    if hs == [] {
      t, z := |x|, rest;
      assert x[..|x|] == x;
    } else {
      var t0, z0 := PairCommutes(x, rest, hs[0], g);
      assert x == x[..t0] + x[t0..];
      NoneInParts(hs[1..], x[..t0], x[t0..]);
      t, z := FormsCommute(hs[1..], x[..t0], z0, g);
      assert x[..t0][..t] == x[..t];
    }
  }

  /** Replacing the i-th form early, in what is already there and free of the earlier ones. */
  lemma OneEarly(ls: seq<Bytes>, i: nat, x: Bytes, rest: Bytes)
    requires AllHidable(ls) && PairwiseIndependent(ls) && i < |ls| && NoneIn(ls[..i], x)
    ensures ReplaceForms(x + rest, ls) == ReplaceForms(Replace(x, ls[i]) + rest, ls)
  {
    var g := ls[i];
    var t, z := FormsCommute(ls[..i], x, rest, g);
    ReplaceEarly(x[..t], g, z);
    ReplaceFormsSnoc(x + rest, ls, i);
    ReplaceFormsSnoc(Replace(x, g) + rest, ls, i);
    ReplaceFormsSplit(x + rest, ls, i + 1);
    ReplaceFormsSplit(Replace(x, g) + rest, ls, i + 1);
  }

  lemma {:induction false} FirstEarly(ls: seq<Bytes>, i: nat, x: Bytes, rest: Bytes)
    requires AllHidable(ls) && PairwiseIndependent(ls) && i <= |ls|
    ensures ReplaceForms(x + rest, ls) == ReplaceForms(ReplaceForms(x, ls[..i]) + rest, ls)
  {
    if i > 0 {
      var hs := ls[..i - 1];
      var y := ReplaceForms(x, hs);
      FirstEarly(ls, i - 1, x, rest);
      forall h | 0 <= h < |hs| ensures !Occurs(hs[h], y) {
        ReplaceFormsClean(x, hs, hs[h]);
      }
      OneEarly(ls, i - 1, y, rest);
      ReplaceFormsSnoc(x, ls, i - 1);
    }
  }

  /** With independent forms, replacing what is already there changes nothing later. */
  lemma AllEarly(forms: seq<Bytes>, x: Bytes, rest: Bytes)
    requires AllHidable(forms) && Independent(forms)
    ensures ReplaceForms(x + rest, forms) == ReplaceForms(ReplaceForms(x, forms) + rest, forms)
  {
    var ls := Live(forms);
    LiveIndependent(forms);
    FirstEarly(ls, |ls|, x, rest);
    assert ls[..|ls|] == ls;
    LiveSuffices(x + rest, forms);
    LiveSuffices(x, forms);
    LiveSuffices(ReplaceForms(x, forms) + rest, forms);
  }

  // ---- independent forms: the chunks never matter --------------------------

  /** A match that did not start in `a` does not start there after a replacement behind it. */
  lemma StartStays(a: Bytes, z: Bytes, g: Bytes, f: Bytes, i: nat)
    requires g != [] && Hidable(f) && i < |a| && !At(a + z, i, f)
    ensures !At(a + Replace(z, g), i, f)
  {
    var r := Replace(z, g);
    var m := |f| - (|a| - i);
    AtConcat(a, z, i, f);
    AtConcat(a, r, i, f);
    if 0 < m <= |r| {
      ReplacePlainPrefix(z, g, m);
      assert f[|f| - m..] == r[..m] ==> '<' !in r[..m];
    }
  }

  lemma {:induction false} KeepPrefix(forms: seq<Bytes>, a: Bytes, z: Bytes)
    requires AllHidable(forms) && forall i :: 0 <= i < |forms| ==> NoStart(a + z, forms[i], |a|)
    ensures ReplaceForms(a + z, forms) == a + ReplaceForms(z, forms)
    decreases |forms|
  {
    if forms != [] {
      var (f, more) := (forms[0], forms[1..]);
      SkipPrefix(a + z, f, |a|);
      assert (a + z)[..|a|] == a && (a + z)[|a|..] == z;
      forall j | 0 <= j < |more| ensures NoStart(a + Replace(z, f), more[j], |a|) {
        assert NoStart(a + z, forms[j + 1], |a|);
        forall i | 0 <= i < |a| ensures !At(a + Replace(z, f), i, more[j]) {
          StartStays(a, z, f, more[j], i);
        }
      }
      KeepPrefix(more, a, Replace(z, f));
    }
  }

  /** In a text without a form, nothing starts before what is held back. */
  lemma NothingStartsBefore(forms: seq<Bytes>, y: Bytes, rest: Bytes, f: Bytes)
    requires AllHidable(forms) && f in forms && !Occurs(f, y)
    ensures NoStart(y + rest, f, |y| - HeldLength(y, forms))
  {
    HeldCoversOverlap(y, forms, f);
    forall i | 0 <= i < |y| - HeldLength(y, forms) ensures !At(y + rest, i, f) {
      AtConcat(y, rest, i, f);
      assert !At(y, i, f);
      if |y| - i < |f| {
        OverlapIsLongest(y, f, |y| - i);
      }
    }
  }

  /** What a step sends is final. */
  lemma StepIsFinal(forms: seq<Bytes>, held: Bytes, chunk: Bytes, rest: Bytes)
    requires AllHidable(forms) && Independent(forms)
    ensures var (out, held') := Step(forms, held, chunk);
            ReplaceForms((held + chunk) + rest, forms) == out + ReplaceForms(held' + rest, forms)
  {
    var y := ReplaceForms(held + chunk, forms);
    var (out, held') := Step(forms, held, chunk);
    AllEarly(forms, held + chunk, rest);
    forall i | 0 <= i < |forms| ensures NoStart(out + (held' + rest), forms[i], |out|) {
      ReplaceFormsClean(held + chunk, forms, forms[i]);
      NothingStartsBefore(forms, y, rest, forms[i]);
      Assoc(out, held', rest);
    }
    Assoc(out, held', rest);
    KeepPrefix(forms, out, held' + rest);
  }

  lemma {:induction false} RunIsFinal(forms: seq<Bytes>, chunks: seq<Bytes>, rest: Bytes)
    requires AllHidable(forms) && Independent(forms)
    ensures var (sent, held) := Run(forms, chunks);
            ReplaceForms(Flatten(chunks) + rest, forms) == sent + ReplaceForms(held + rest, forms)
    decreases |chunks|
  {
    if chunks == [] {
      assert [] + rest == rest && [] + ReplaceForms(rest, forms) == ReplaceForms(rest, forms);
    } else {
      var (before, chunk) := (chunks[..|chunks| - 1], chunks[|chunks| - 1]);
      var (sent, held) := Run(forms, before);
      var (out, held') := Step(forms, held, chunk);
      RunIsFinal(forms, before, chunk + rest);
      Assoc(Flatten(before), chunk, rest);
      Assoc(held, chunk, rest);
      StepIsFinal(forms, held, chunk, rest);
      Assoc(sent, out, ReplaceForms(held' + rest, forms));
    }
  }

  /** With independent forms the relayed bytes are the whole stream with every form replaced. */
  lemma IndependentAnyChunking(forms: seq<Bytes>, chunks: seq<Bytes>)
    requires AllHidable(forms) && Independent(forms)
    ensures Relayed(forms, chunks) == ReplaceForms(Flatten(chunks), forms)
  {
    var (sent, held) := Run(forms, chunks);
    RunIsFinal(forms, chunks, []);
    assert Flatten(chunks) + [] == Flatten(chunks) && held + [] == held;
  }

  // ---- dependent forms: a stream on which the chunks matter ----------------

  /** A stream in two chunks: what the second step does not send, the flush does. */
  lemma TwoChunks(forms: seq<Bytes>, a: Bytes, b: Bytes)
    requires AllHidable(forms)
    ensures var (out, held) := Step(forms, [], a);
            Relayed(forms, [a, b]) == out + ReplaceForms(held + b, forms)
  {
    var (out, held) := Step(forms, [], a);
    var (out', held') := Step(forms, held, b);
    RunTwo(forms, a, b);
    forall i | 0 <= i < |forms| ensures !Occurs(forms[i], held') {
      ReplaceFormsClean(held + b, forms, forms[i]);
      AbsentInParts(out', held', forms[i]);
    }
    ReplaceFormsAbsent(held', forms);
    Assoc(out, out', held');
  }

  lemma RunTwo(forms: seq<Bytes>, a: Bytes, b: Bytes)
    requires NonEmpty(forms)
    ensures var (out, held) := Step(forms, [], a);
            var (out', held') := Step(forms, held, b);
            Run(forms, [a, b]) == (out + out', held')
  {
    var (out, held) := Step(forms, [], a);
    assert [a, b][..1] == [a] && [a][..0] == [] && [] + out == out;
    assert Run(forms, [a]) == (out, held);
  }

  lemma ReplaceBehind(q: Bytes, h: Bytes)
    requires Hidable(h)
    ensures Replace(REDACTED + q, h) == REDACTED + Replace(q, h)
  {
    var s := REDACTED + q;
    forall i | 0 <= i < |REDACTED| ensures !At(s, i, h) {
      NotFromPlaceholder(q, h, i);
    }
    SkipPrefix(s, h, |REDACTED|);
    assert s[..|REDACTED|] == REDACTED && s[|REDACTED|..] == q;
  }

  /** A form stands at the start of a text and what begins with a bracket only if in the text. */
  lemma HeadBefore(p: Bytes, z: Bytes, h: Bytes)
    requires Hidable(h) && z != [] && z[0] == '<' && |h| <= |p + z|
    ensures (p + z)[..|h|] == h <==> |h| <= |p| && p[..|h|] == h
  {
    var s := p + z;
    assert s[|p|] == '<';
    assert |h| <= |p| ==> s[..|h|] == p[..|h|];
    assert |p| < |h| ==> s[..|h|][|p|] == '<';
  }

  /** Nothing is replaced across an opening bracket. */
  lemma {:induction false} ReplaceBefore(p: Bytes, z: Bytes, h: Bytes)
    requires Hidable(h) && z != [] && z[0] == '<'
    ensures Replace(p + z, h) == Replace(p, h) + Replace(z, h)
    decreases |p|
  {
    var s := p + z;
    if |h| <= |s| {
      HeadBefore(p, z, h);
    }
    if p == [] {
      assert s == z;
    } else if |p| >= |h| && p[..|h|] == h {
      assert s[|h|..] == p[|h|..] + z;
      ReplaceBefore(p[|h|..], z, h);
      Assoc(REDACTED, Replace(p[|h|..], h), Replace(z, h));
    } else {
      assert s[1..] == p[1..] + z;
      ReplaceBefore(p[1..], z, h);
      ReplaceByte(s, h);
      ReplaceByte(p, h);
      Assoc([p[0]], Replace(p[1..], h), Replace(z, h));
    }
  }

  /** A placeholder already there stays, and nothing is replaced across it. */
  lemma ReplaceAround(p: Bytes, q: Bytes, h: Bytes)
    requires Hidable(h)
    ensures Replace(p + REDACTED + q, h) == Replace(p, h) + REDACTED + Replace(q, h)
  {
    Assoc(p, REDACTED, q);
    ReplaceBefore(p, REDACTED + q, h);
    ReplaceBehind(q, h);
    Assoc(Replace(p, h), REDACTED, Replace(q, h));
  }

  lemma {:induction false} ReplaceFormsAround(p: Bytes, q: Bytes, hs: seq<Bytes>)
    requires AllHidable(hs)
    ensures ReplaceForms(p + REDACTED + q, hs) == ReplaceForms(p, hs) + REDACTED + ReplaceForms(q, hs)
    decreases |hs|
  {
    if hs != [] {
      ReplaceAround(p, q, hs[0]);
      ReplaceFormsAround(Replace(p, hs[0]), Replace(q, hs[0]), hs[1..]);
    }
  }

  /** Replacing at the first match. */
  lemma ReplaceFirst(s: Bytes, f: Bytes, p: nat)
    requires f != [] && At(s, p, f) && NoStart(s, f, p)
    ensures Replace(s, f) == s[..p] + REDACTED + Replace(s[p + |f|..], f)
  {
    SkipPrefix(s, f, p);
    assert s[p..][..|f|] == f && s[p..][|f|..] == s[p + |f|..];
    Assoc(s[..p], REDACTED, Replace(s[p + |f|..], f));
  }

  /** If some form stands in the text, a placeholder stands in the result. */
  lemma {:induction false} PlaceholderAppears(s: Bytes, hs: seq<Bytes>, i: nat) returns (p: Bytes, q: Bytes)
    requires AllHidable(hs) && i < |hs| && Occurs(hs[i], s)
    ensures ReplaceForms(s, hs) == p + REDACTED + q
    decreases |hs|
  {
    var f := hs[0];
    if Occurs(f, s) {
      var at :| At(s, at, f);
      var t := FirstAt(s, f, 0, at);
      ReplaceFirst(s, f, t);
      ReplaceFormsAround(s[..t], Replace(s[t + |f|..], f), hs[1..]);
      p, q := ReplaceForms(s[..t], hs[1..]), ReplaceForms(Replace(s[t + |f|..], f), hs[1..]);
    } else {
      ReplaceAbsent(s, f);
      p, q := PlaceholderAppears(s, hs[1..], i - 1);
    }
  }

  /** What is held back is a start of some form: it has no bracket. */
  lemma {:induction false} HeldIsPlain(buf: Bytes, forms: seq<Bytes>)
    requires AllHidable(forms)
    ensures '>' !in buf[|buf| - HeldLength(buf, forms)..]
    decreases |forms|
  {
    if forms != [] {
      var (init, f) := (forms[..|forms| - 1], forms[|forms| - 1]);
      HeldIsPlain(buf, init);
      assert buf[|buf| - Overlap(buf, f)..] == f[..Overlap(buf, f)];
    }
  }

  lemma {:induction false} NothingVanishes(s: Bytes, hs: seq<Bytes>)
    requires NonEmpty(hs) && s != []
    ensures ReplaceForms(s, hs) != []
    decreases |hs|
  {
    if hs != [] {
      assert Replace(s, hs[0]) != [];
      NothingVanishes(Replace(s, hs[0]), hs[1..]);
    }
  }

  /** A form that is not shadowed goes out as one placeholder. */
  lemma FormAlone(forms: seq<Bytes>, i: nat)
    requires AllHidable(forms) && i < |forms| && !Shadowed(forms, i)
    ensures ReplaceForms(forms[i], forms) == REDACTED
  {
    var f := forms[i];
    EarlierAbsent(forms, i, f);
    WholeIsOne(f);
    ReplaceFormsSnoc(f, forms, i);
    assert ReplaceForms(f, forms[..i + 1]) == REDACTED;
    PlaceholderStays(forms[i + 1..]);
    ReplaceFormsSplit(f, forms, i + 1);
  }

  /** Forms before the first one in a text leave it alone. */
  lemma EarlierAbsent(forms: seq<Bytes>, i: nat, s: Bytes)
    requires NonEmpty(forms) && i <= |forms| && forall m :: 0 <= m < i ==> !Occurs(forms[m], s)
    ensures ReplaceForms(s, forms[..i]) == s
  {
    ReplaceFormsAbsent(s, forms[..i]);
  }

  lemma PlaceholderStays(forms: seq<Bytes>)
    requires AllHidable(forms)
    ensures ReplaceForms(REDACTED, forms) == REDACTED
  {
    ReplaceFormsAbsent(REDACTED, forms);
  }

  /** A first chunk with a form in it sends a whole placeholder. */
  lemma SendsPlaceholder(forms: seq<Bytes>, a: Bytes, j: nat)
    requires AllHidable(forms) && j < |forms| && Occurs(forms[j], a)
    ensures |Step(forms, [], a).0| >= |REDACTED|
  {
    var y := ReplaceForms(a, forms);
    assert [] + a == a;
    var p, q := PlaceholderAppears(a, forms, j);
    HeldIsPlain(y, forms);
    BeforeTail(y, |y| - HeldLength(y, forms), '>', |p| + |REDACTED| - 1);
  }

  lemma BeforeTail(y: Bytes, cut: nat, c: char, at: nat)
    requires cut <= |y| && at < |y| && y[at] == c
    ensures at < cut || c in y[cut..]
  {
    if cut <= at {
      assert y[cut..][at - cut] == c;
    }
  }

  /** A form cut after one that stands inside it: more than one placeholder goes out. */
  lemma CutInside(forms: seq<Bytes>, i: nat, j: nat, k: nat)
    requires AllHidable(forms) && i < |forms| && j < |forms| && !Shadowed(forms, i)
    requires k < |forms[i]| && Occurs(forms[j], forms[i][..k])
    ensures Relayed(forms, [forms[i][..k], forms[i][k..]])
         != ReplaceForms(Flatten([forms[i][..k], forms[i][k..]]), forms)
  {
    var (a, b) := (forms[i][..k], forms[i][k..]);
    TwoParts(a, b);
    assert a + b == forms[i];
    FormAlone(forms, i);
    TwoChunks(forms, a, b);
    SendsPlaceholder(forms, a, j);
    NothingVanishes(Step(forms, [], a).1 + b, forms);
    assert ReplaceForms(Flatten([a, b]), forms) == REDACTED;
    assert |Relayed(forms, [a, b])| > |REDACTED|;
  }

  lemma TwoParts(a: Bytes, b: Bytes)
    ensures Flatten([a, b]) == a + b
  {
    assert [a, b][..1] == [a] && [a][..0] == [];
    assert Flatten([a]) == [] + a == a;
  }

  /** The first form of the key ring that stands in a text, given that one does. */
  ghost function FirstIn(forms: seq<Bytes>, s: Bytes, from: nat): (l: nat)
    requires from <= |forms|
    ensures from <= l <= |forms| && (l < |forms| ==> Occurs(forms[l], s))
    ensures forall m :: from <= m < l ==> !Occurs(forms[m], s)
    decreases |forms| - from
  {
    if from == |forms| || Occurs(forms[from], s) then from else FirstIn(forms, s, from + 1)
  }

  lemma FirstIsLive(forms: seq<Bytes>, s: Bytes)
    requires FirstIn(forms, s, 0) < |forms|
    ensures !Shadowed(forms, FirstIn(forms, s, 0))
  {
    var l := FirstIn(forms, s, 0);
    forall m | 0 <= m < l ensures !Occurs(forms[m], forms[l]) {
      if Occurs(forms[m], forms[l]) {
        OccursIn(forms[m], forms[l], s);
      }
    }
  }

  /** A form that is not shadowed, as a first chunk, goes out as one placeholder. */
  lemma SentAlone(forms: seq<Bytes>, j: nat, b: Bytes)
    requires AllHidable(forms) && j < |forms| && !Shadowed(forms, j)
    ensures Relayed(forms, [forms[j], b]) == REDACTED + ReplaceForms(b, forms)
  {
    var g := forms[j];
    assert [] + g == g && [] + b == b;
    FormAlone(forms, j);
    PlaceholderNotHeld(forms);
    assert REDACTED[..|REDACTED|] == REDACTED && REDACTED[|REDACTED|..] == [];
    TwoChunks(forms, g, b);
  }

  lemma PlaceholderNotHeld(forms: seq<Bytes>)
    requires AllHidable(forms)
    ensures HeldLength(REDACTED, forms) == 0
  {
    forall i | 0 <= i < |forms| ensures '>' !in forms[i][..|forms[i]| - 1] {
      assert forall c :: c in forms[i][..|forms[i]| - 1] ==> c in forms[i];
    }
    NothingHeld(REDACTED, forms);
  }

  /** The first replacement in a text leaves what stands before it, if no form is in that. */
  lemma HeadRemains(forms: seq<Bytes>, s: Bytes, p: nat)
    requires AllHidable(forms) && FirstIn(forms, s, 0) < |forms| && 0 < p <= |s|
    requires At(s, p, forms[FirstIn(forms, s, 0)]) && NoStart(s, forms[FirstIn(forms, s, 0)], p)
    requires NoneIn(forms, s[..p])
    ensures var r := ReplaceForms(s, forms); r != [] && r[0] == s[0]
  {
    var l := FirstIn(forms, s, 0);
    var (f, more) := (forms[l], forms[l + 1..]);
    var q := Replace(s[p + |f|..], f);
    ReplaceFormsAbsent(s, forms[..l]);
    ReplaceFirst(s, f, p);
    ReplaceFormsSnoc(s, forms, l);
    ReplaceFormsSplit(s, forms, l + 1);
    ReplaceFormsAround(s[..p], q, more);
    forall i | 0 <= i < |more| ensures !Occurs(more[i], s[..p]) {
      assert more[i] == forms[l + 1 + i];
    }
    ReplaceFormsAbsent(s[..p], more);
  }

  /** `EndsAt` with `g` first: the text `g` and the rest of `f`, which holds `f`. */
  lemma Overlapping(g: Bytes, f: Bytes, k: nat)
    requires EndsAt(g, f, k) && k <= |g|
    ensures At(g + f[k..], |g| - k, f)
  {
    assert g + f[k..] == g[..|g| - k] + f by {
      assert g == g[..|g| - k] + g[|g| - k..] && f == f[..k] + f[k..];
    }
    AtConcat(g[..|g| - k], f, |g| - k, f);
    assert f[0..|f|] == f;
  }

  lemma AtEnd(f: Bytes, g: Bytes, k: nat)
    requires EndsAt(g, f, k) && |g| <= k
    ensures Occurs(g, f[..k])
  {
    assert f[..k][k - |g|..k - |g| + |g|] == f[k - |g|..k];
    assert At(f[..k], k - |g|, g);
  }

  /** The stream `forms[j]` and the rest of `forms[i]`, when the first form in it starts past
      its first byte and no form stands before that: whole, the first byte goes out as it is;
      cut after `forms[j]`, a placeholder goes out first. */
  lemma CutAcross(forms: seq<Bytes>, j: nat, b: Bytes, p: nat)
    requires AllHidable(forms) && j < |forms| && !Shadowed(forms, j) && 0 < p <= |forms[j]|
    requires var (s, l) := (forms[j] + b, FirstIn(forms, forms[j] + b, 0));
             l < |forms| && At(s, p, forms[l]) && NoStart(s, forms[l], p)
    requires NoneIn(forms, forms[j][..p])
    ensures Relayed(forms, [forms[j], b]) != ReplaceForms(Flatten([forms[j], b]), forms)
  {
    var g := forms[j];
    TwoParts(g, b);
    assert (g + b)[..p] == g[..p];
    HeadRemains(forms, g + b, p);
    SentAlone(forms, j, b);
    assert g[0] in g;
  }

  /** Two forms that overlap so that the later one ends inside the earlier, neither shadowed:
      some stream goes out differently in two chunks than it would whole. */
  lemma DependentDiffers(forms: seq<Bytes>, i: nat, j: nat, k: nat) returns (chunks: seq<Bytes>)
    requires AllHidable(forms) && i < j < |forms| && !Shadowed(forms, i) && !Shadowed(forms, j)
    requires EndsAt(forms[j], forms[i], k)
    ensures Relayed(forms, chunks) != ReplaceForms(Flatten(chunks), forms)
    decreases |forms| - j
  {
    var (g, f) := (forms[j], forms[i]);
    if |g| <= k {
      AtEnd(f, g, k);
      CutInside(forms, i, j, k);
      chunks := [f[..k], f[k..]];
    } else {
      var s := g + f[k..];
      Overlapping(g, f, k);
      var l := FirstIn(forms, s, 0);
      FirstIsLive(forms, s);
      var at :| At(s, at, forms[l]);
      var p := FirstAt(s, forms[l], 0, at);
      AtConcat(g, f[k..], p, forms[l]);
      if p == 0 {
        StartsBeyond(forms, l, j, f[k..]);
        CutInside(forms, l, j, |g|);
        chunks := [forms[l][..|g|], forms[l][|g|..]];
      } else {
        FirstStartsInside(forms, i, l, g, k, p);
        var h := FirstIn(forms, g[..p], 0);
        if h == |forms| {
          CutAcross(forms, j, f[k..], p);
          chunks := [g, f[k..]];
        } else {
          FirstIsLive(forms, g[..p]);
          var k' := PartEnds(forms, j, h, p);
          chunks := DependentDiffers(forms, j, h, k');
        }
      }
    }
  }

  /** An earlier form at the start of `forms[j] + b` goes on beyond `forms[j]`. */
  lemma StartsBeyond(forms: seq<Bytes>, l: nat, j: nat, b: Bytes)
    requires l < j < |forms| && !Shadowed(forms, j) && At(forms[j] + b, 0, forms[l])
    ensures |forms[j]| < |forms[l]| && Occurs(forms[j], forms[l][..|forms[j]|])
  {
    var (g, h) := (forms[j], forms[l]);
    AtConcat(g, b, 0, h);
    assert !At(g, 0, h);
    AtPart(g + b, 0, h, 0, |g|);
    assert (g + b)[0 + 0..0 + |g|] == g;
    assert At(h[..|g|], 0, g);
  }

  /** Where the first form of the text stands: not in the part of `forms[i]` behind `g`. */
  lemma FirstStartsInside(forms: seq<Bytes>, i: nat, l: nat, g: Bytes, k: nat, p: nat)
    requires l <= i < |forms| && !Shadowed(forms, i) && 0 < k < |forms[i]|
    requires At(g + forms[i][k..], p, forms[l])
    ensures p < |g|
  {
    var (f, h) := (forms[i], forms[l]);
    AtConcat(g, f[k..], p, h);
    if p >= |g| {
      AtDrop(f, h, k, p - |g|);
      assert Occurs(h, f);
    }
  }

  /** A form in a proper start of `forms[j]` is a later one, and ends inside `forms[j]`. */
  lemma PartEnds(forms: seq<Bytes>, j: nat, h: nat, p: nat) returns (k: nat)
    requires AllHidable(forms) && j < |forms| && h < |forms| && !Shadowed(forms, j) && p < |forms[j]|
    requires Occurs(forms[h], forms[j][..p])
    ensures j < h && EndsAt(forms[h], forms[j], k)
  {
    var (g, f) := (forms[h], forms[j]);
    var q :| At(f[..p], q, g);
    k := q + |g|;
    assert f[k - |g|..k] == f[..p][q..q + |g|];
    assert At(f, q, g);
    assert Occurs(g, f);
  }

  /** For any key ring: what is relayed is the whole stream with every form replaced, for every
      stream in every chunking, if and only if no form can end inside one replaced before it. */
  lemma ChunksNeverMatterIff(forms: seq<Bytes>)
    requires AllHidable(forms)
    ensures ChunksNeverMatter(forms) <==> Independent(forms)
  {
    if Independent(forms) {
      forall chunks ensures Relayed(forms, chunks) == ReplaceForms(Flatten(chunks), forms) {
        IndependentAnyChunking(forms, chunks);
      }
    } else {
      var i, j :| 0 <= i < j < |forms| && !Shadowed(forms, i) && !Shadowed(forms, j) && EndsInside(forms[j], forms[i]);
      var k :| EndsAt(forms[j], forms[i], k);
      var chunks := DependentDiffers(forms, i, j, k);
    }
  }
}
