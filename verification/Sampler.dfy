/** eval/crazeeval/judging.py: `pick_calibration_pairs`, a round-robin over (task, model)
    groups. The seed's two kinds of shuffle are parameters: any order of the groups, and any
    order within each. */
module Sampling {
  import opened Common

  datatype Pair = Pair(task: string, model: string, x: string, y: string)

  datatype Key = Key(task: string, model: string)

  type Groups = map<Key, seq<Pair>>

  function KeyOf(p: Pair): Key { Key(p.task, p.model) }

  /** The pairs of one group, in the order they came. */
  function Own(pairs: seq<Pair>, k: Key): seq<Pair> {
    if pairs == [] then []
    else
      var (earlier, p) := (Own(pairs[..|pairs| - 1], k), pairs[|pairs| - 1]);
      if KeyOf(p) == k then earlier + [p] else earlier
  }

  /** A group's pairs are of its task and its model. */
  function OfGroup(k: Key): Pair -> bool { (p: Pair) => p.task == k.task && p.model == k.model }

  /** Each of them stands in the group behind as many as came before it. */
  lemma {:induction false} OwnInOrder(pairs: seq<Pair>, k: Key, i: nat)
    requires i <= |pairs|
    ensures |Own(pairs, k)| == |Where(pairs, OfGroup(k))|
    ensures i < |pairs| && OfGroup(k)(pairs[i]) ==>
              |Where(pairs[..i], OfGroup(k))| < |Own(pairs, k)|
              && Own(pairs, k)[|Where(pairs[..i], OfGroup(k))|] == pairs[i]
    decreases |pairs|
  {
    if pairs != [] {
      var before := pairs[..|pairs| - 1];
      WhereLast(pairs, OfGroup(k));
      OwnInOrder(before, k, Min(i, |before|));
      assert i < |pairs| ==> pairs[..i] == before[..i];
    }
  }

  method Group(pairs: seq<Pair>) returns (groups: Groups)
    ensures forall k :: k in groups <==> exists i :: 0 <= i < |pairs| && KeyOf(pairs[i]) == k
    ensures forall k :: k in groups ==> groups[k] == Own(pairs, k)
  {
    groups := map[];
    var i := 0;
    while i < |pairs|
      invariant 0 <= i <= |pairs|
      invariant forall k :: k in groups <==> exists j :: 0 <= j < i && KeyOf(pairs[j]) == k
      invariant forall k :: k in groups ==> groups[k] == Own(pairs[..i], k)
      invariant forall k :: k !in groups ==> Own(pairs[..i], k) == []
    {
      assert pairs[..i + 1][..i] == pairs[..i];
      var k := KeyOf(pairs[i]);
      var own := if k in groups then groups[k] else [];
      groups := groups[k := own + [pairs[i]]];
      i := i + 1;
    }
    assert pairs[..i] == pairs;
  }

  /** `keys` and `groups` as the shuffles may leave them. */
  ghost predicate Shuffled(pairs: seq<Pair>, keys: seq<Key>, groups: Groups) {
    && (forall i, j :: 0 <= i < j < |keys| ==> keys[i] != keys[j])
    && (forall i :: 0 <= i < |pairs| ==> KeyOf(pairs[i]) in keys)
    && (forall k :: k in keys <==> k in groups)
    && (forall k :: k in groups ==> multiset(groups[k]) == multiset(Own(pairs, k)))
  }

  // ---- the rounds ----------------------------------------------------------

  function GroupOf(groups: Groups, k: Key): seq<Pair> { if k in groups then groups[k] else [] }

  /** What a group gives in round r: the pair r from its end, if it has one. */
  function Given(g: seq<Pair>, r: nat): seq<Pair> { if r < |g| then [g[|g| - 1 - r]] else [] }

  function Flat(parts: seq<seq<Pair>>): seq<Pair> {
    if parts == [] then [] else Flat(parts[..|parts| - 1]) + parts[|parts| - 1]
  }

  /** The first j groups' part of a round: each in turn gives a pair. */
  function Round(keys: seq<Key>, groups: Groups, r: nat, j: nat): seq<Pair>
    requires j <= |keys|
  {
    Flat(seq(j, i requires 0 <= i < j => Given(GroupOf(groups, keys[i]), r)))
  }

  function Rounds(keys: seq<Key>, groups: Groups, r: nat): seq<Pair> {
    Flat(seq(r, q requires 0 <= q < r => Round(keys, groups, q, |keys|)))
  }

  lemma FlatStep(parts: seq<seq<Pair>>, last: seq<Pair>, all: seq<seq<Pair>>)
    requires all == parts + [last]
    ensures Flat(all) == Flat(parts) + last
  {
    assert all[..|all| - 1] == parts;
  }

  lemma RoundStep(keys: seq<Key>, groups: Groups, r: nat, j: nat)
    requires j < |keys|
    ensures Round(keys, groups, r, j + 1) == Round(keys, groups, r, j) + Given(GroupOf(groups, keys[j]), r)
  {
    FlatStep(seq(j, i requires 0 <= i < j => Given(GroupOf(groups, keys[i]), r)), Given(GroupOf(groups, keys[j]), r),
             seq(j + 1, i requires 0 <= i < j + 1 => Given(GroupOf(groups, keys[i]), r)));
  }

  lemma RoundsStep(keys: seq<Key>, groups: Groups, r: nat)
    ensures Rounds(keys, groups, r + 1) == Rounds(keys, groups, r) + Round(keys, groups, r, |keys|)
  {
    FlatStep(seq(r, q requires 0 <= q < r => Round(keys, groups, q, |keys|)), Round(keys, groups, r, |keys|),
             seq(r + 1, q requires 0 <= q < r + 1 => Round(keys, groups, q, |keys|)));
  }

  /** While every group has pairs left, a round takes one from the end of each, in turn. */
  lemma {:induction false} FullRound(keys: seq<Key>, groups: Groups, r: nat, j: nat, i: nat)
    requires i < j <= |keys| && forall m :: 0 <= m < |keys| ==> r < |GroupOf(groups, keys[m])|
    ensures |Round(keys, groups, r, j)| == j
    ensures var g := GroupOf(groups, keys[i]); Round(keys, groups, r, j)[i] == g[|g| - 1 - r]
  {
    RoundStep(keys, groups, r, j - 1);
    if j > 1 {
      FullRound(keys, groups, r, j - 1, Min(i, j - 2));
    } else {
      assert Round(keys, groups, r, 0) == [];
    }
  }

  /** What each group keeps after r rounds. */
  function Rest(g: seq<Pair>, r: nat): seq<Pair> { g[..Max(|g| - r, 0)] }

  function Take(s: seq<Pair>, n: int): seq<Pair> { s[..Max(0, Min(n, |s|))] }

  /** How many pairs of group `k` stand in `s`. */
  function Count(s: seq<Pair>, k: Key): nat { |Own(s, k)| }

  function Copies(s: seq<Pair>, p: Pair): nat { multiset(s)[p] }

  // ---- what one group gives ------------------------------------------------

  /** What a group has given after r rounds: its last r pairs, from the end. */
  function Drawn(g: seq<Pair>, r: nat): seq<Pair> {
    if r == 0 then [] else Drawn(g, r - 1) + Given(g, r - 1)
  }

  lemma CopiesConcat(a: seq<Pair>, b: seq<Pair>, p: Pair)
    ensures Copies(a + b, p) == Copies(a, p) + Copies(b, p)
  {
    assert multiset(a + b) == multiset(a) + multiset(b);
  }

  lemma GivenLeaves(g: seq<Pair>, r: nat, p: Pair)
    ensures Copies(Rest(g, r), p) == Copies(Rest(g, r + 1), p) + Copies(Given(g, r), p)
  {
    assert Rest(g, r) == Rest(g, r + 1) + Given(g, r);
    CopiesConcat(Rest(g, r + 1), Given(g, r), p);
  }

  /** Drawing from a group loses and doubles nothing. */
  lemma {:induction false} DrawnConserves(g: seq<Pair>, r: nat, p: Pair)
    ensures |Drawn(g, r)| == Min(r, |g|)
    ensures Copies(g, p) == Copies(Rest(g, r), p) + Copies(Drawn(g, r), p)
  {
    if r == 0 {
      assert Rest(g, 0) == g;
    } else {
      var q := r - 1;
      DrawnConserves(g, q, p);
      GivenLeaves(g, q, p);
      CopiesConcat(Drawn(g, q), Given(g, q), p);
    }
  }

  // ---- what the rounds take from each group --------------------------------

  lemma {:induction false} OwnConcat(a: seq<Pair>, b: seq<Pair>, k: Key)
    ensures Own(a + b, k) == Own(a, k) + Own(b, k)
  {
    if b == [] {
      assert a + b == a;
    } else {
      var (init, last) := (b[..|b| - 1], b[|b| - 1]);
      assert (a + b)[..|a + b| - 1] == a + init;
      OwnConcat(a, init, k);
      Assoc(Own(a, k), Own(init, k), if KeyOf(last) == k then [last] else []);
    }
  }

  lemma {:induction false} OwnCopies(pairs: seq<Pair>, k: Key, p: Pair)
    ensures Copies(Own(pairs, k), p) == if KeyOf(p) == k then Copies(pairs, p) else 0
  {
    if pairs != [] {
      var (before, last) := (pairs[..|pairs| - 1], pairs[|pairs| - 1]);
      OwnCopies(before, k, p);
      CopiesConcat(before, [last], p);
      CopiesConcat(Own(before, k), [last], p);
      assert pairs == before + [last];
    }
  }

  /** Each group holds only its own pairs. */
  ghost predicate Sorted(keys: seq<Key>, groups: Groups) {
    && (forall i, j :: 0 <= i < j < |keys| ==> keys[i] != keys[j])
    && forall k, i :: k in groups && 0 <= i < |groups[k]| ==> KeyOf(groups[k][i]) == k
  }

  lemma OwnGiven(g: seq<Pair>, r: nat, own: Key, k: Key)
    requires forall i :: 0 <= i < |g| ==> KeyOf(g[i]) == own
    ensures Own(Given(g, r), k) == if k == own then Given(g, r) else []
  {
    if r < |g| {
      assert Given(g, r)[..0] == [];
    }
  }

  lemma OwnRoundStep(keys: seq<Key>, groups: Groups, r: nat, j: nat, k: Key)
    requires Sorted(keys, groups) && j < |keys|
    ensures Own(Round(keys, groups, r, j + 1), k)
            == if keys[j] == k then Own(Round(keys, groups, r, j), k) + Given(GroupOf(groups, k), r)
               else Own(Round(keys, groups, r, j), k)
  {
    var (earlier, given) := (Round(keys, groups, r, j), Given(GroupOf(groups, keys[j]), r));
    OwnGiven(GroupOf(groups, keys[j]), r, keys[j], k);
    RoundStep(keys, groups, r, j);
    OwnConcat(earlier, given, k);
  }

  /** A round takes from the i-th group what it gives, once its turn has come. */
  lemma {:induction false} OwnRound(keys: seq<Key>, groups: Groups, r: nat, j: nat, i: nat)
    requires Sorted(keys, groups) && j <= |keys| && i < |keys|
    ensures Own(Round(keys, groups, r, j), keys[i]) == if i < j then Given(GroupOf(groups, keys[i]), r) else []
  {
    if j > 0 {
      OwnRound(keys, groups, r, j - 1, i);
      OwnRoundStep(keys, groups, r, j - 1, keys[i]);
    }
  }

  lemma DrawnStep(g: seq<Pair>, r: nat)
    ensures Drawn(g, r + 1) == Drawn(g, r) + Given(g, r)
  {
  }

  lemma OwnRoundsStep(keys: seq<Key>, groups: Groups, q: nat, i: nat)
    requires Sorted(keys, groups) && i < |keys|
    ensures Own(Rounds(keys, groups, q + 1), keys[i])
            == Own(Rounds(keys, groups, q), keys[i]) + Given(GroupOf(groups, keys[i]), q)
  {
    OwnRound(keys, groups, q, |keys|, i);
    RoundsStep(keys, groups, q);
    OwnConcat(Rounds(keys, groups, q), Round(keys, groups, q, |keys|), keys[i]);
  }

  lemma {:induction false} OwnRounds(keys: seq<Key>, groups: Groups, r: nat, i: nat)
    requires Sorted(keys, groups) && i < |keys|
    ensures Own(Rounds(keys, groups, r), keys[i]) == Drawn(GroupOf(groups, keys[i]), r)
  {
    if r > 0 {
      var q := r - 1;
      OwnRounds(keys, groups, q, i);
      OwnRoundsStep(keys, groups, q, i);
      DrawnStep(GroupOf(groups, keys[i]), q);
      assert r == q + 1;
    }
  }

  /** No round takes a pair of a group there is not. */
  lemma {:induction false} OtherRound(keys: seq<Key>, groups: Groups, r: nat, j: nat, k: Key)
    requires Sorted(keys, groups) && j <= |keys| && forall i :: 0 <= i < |keys| ==> keys[i] != k
    ensures Own(Round(keys, groups, r, j), k) == []
  {
    if j > 0 {
      OtherRound(keys, groups, r, j - 1, k);
      OwnRoundStep(keys, groups, r, j - 1, k);
    }
  }

  lemma {:induction false} OtherRounds(keys: seq<Key>, groups: Groups, r: nat, k: Key)
    requires Sorted(keys, groups) && forall i :: 0 <= i < |keys| ==> keys[i] != k
    ensures Own(Rounds(keys, groups, r), k) == []
  {
    if r > 0 {
      var q := r - 1;
      OtherRounds(keys, groups, q, k);
      OtherRound(keys, groups, q, |keys|, k);
      RoundsStep(keys, groups, q);
      OwnConcat(Rounds(keys, groups, q), Round(keys, groups, q, |keys|), k);
    }
  }

  // ---- fairness ------------------------------------------------------------

  lemma TakeConcat(a: seq<Pair>, b: seq<Pair>, m: nat)
    requires m <= |a + b|
    ensures (a + b)[..m] == if m <= |a| then a[..m] else a + b[..m - |a|]
  {
  }

  /** Part of the way through round r: at most one pair more of each group. */
  lemma CountWithin(keys: seq<Key>, groups: Groups, r: nat, j: nat, i: nat)
    requires Sorted(keys, groups) && i < |keys| && j <= |Round(keys, groups, r, |keys|)|
    ensures var size := |GroupOf(groups, keys[i])|;
            Min(r, size) <= Count(Rounds(keys, groups, r) + Round(keys, groups, r, |keys|)[..j], keys[i])
            <= Min(r + 1, size)
  {
    var (round, k) := (Round(keys, groups, r, |keys|), keys[i]);
    var (g, p) := (GroupOf(groups, k), Pair("", "", "", ""));
    assert round == round[..j] + round[j..];
    OwnConcat(Rounds(keys, groups, r), round[..j], k);
    OwnConcat(round[..j], round[j..], k);
    OwnRounds(keys, groups, r, i);
    OwnRound(keys, groups, r, |keys|, i);
    DrawnConserves(g, r, p);
  }

  /** In the draw's first m pairs each group has given at least r, or all it has, and at most
      r + 1. */
  ghost predicate Within(keys: seq<Key>, groups: Groups, out: seq<Pair>, r: nat) {
    forall i :: 0 <= i < |keys| ==>
      Min(r, |GroupOf(groups, keys[i])|) <= Count(out, keys[i]) <= Min(r + 1, |GroupOf(groups, keys[i])|)
  }

  lemma {:induction false} PrefixWithin(keys: seq<Key>, groups: Groups, upTo: nat, m: nat) returns (r: nat)
    requires Sorted(keys, groups) && m <= |Rounds(keys, groups, upTo)|
    ensures Within(keys, groups, Rounds(keys, groups, upTo)[..m], r)
  {
    if upTo == 0 {
      r := 0;
    } else {
      var q := upTo - 1;
      var (done, round) := (Rounds(keys, groups, q), Round(keys, groups, q, |keys|));
      RoundsStep(keys, groups, q);
      TakeConcat(done, round, m);
      if m > |done| {
        r := q;
        forall i | 0 <= i < |keys|
          ensures Min(r, |GroupOf(groups, keys[i])|) <= Count(done + round[..m - |done|], keys[i])
                  <= Min(r + 1, |GroupOf(groups, keys[i])|)
        {
          CountWithin(keys, groups, q, m - |done|, i);
        }
      } else {
        r := PrefixWithin(keys, groups, q, m);
      }
    }
  }

  /** A group with pairs left was drawn at most one time fewer than any other. */
  ghost predicate Fair(keys: seq<Key>, groups: Groups, out: seq<Pair>) {
    forall i, j :: 0 <= i < |keys| && 0 <= j < |keys| && Count(out, keys[i]) < |GroupOf(groups, keys[i])| ==>
      Count(out, keys[j]) <= Count(out, keys[i]) + 1
  }

  lemma WithinIsFair(keys: seq<Key>, groups: Groups, out: seq<Pair>, r: nat)
    requires Within(keys, groups, out, r)
    ensures Fair(keys, groups, out)
  {
  }

  // ---- the draw ------------------------------------------------------------

  lemma {:induction false} RoundsGrow(keys: seq<Key>, groups: Groups, r: nat, upTo: nat)
    requires r <= upTo
    ensures Rounds(keys, groups, r) <= Rounds(keys, groups, upTo)
  {
    if r < upTo {
      RoundsGrow(keys, groups, r, upTo - 1);
      RoundsStep(keys, groups, upTo - 1);
    }
  }

  /** Every group is exhausted by round r. */
  ghost predicate Exhausted(keys: seq<Key>, groups: Groups, r: nat) {
    forall i :: 0 <= i < |keys| ==> |GroupOf(groups, keys[i])| <= r
  }

  lemma {:induction false} EmptyRound(keys: seq<Key>, groups: Groups, r: nat, j: nat)
    requires j <= |keys| && Exhausted(keys, groups, r)
    ensures Round(keys, groups, r, j) == []
  {
    if j > 0 {
      EmptyRound(keys, groups, r, j - 1);
      RoundStep(keys, groups, r, j - 1);
    }
  }

  lemma {:induction false} RoundsStop(keys: seq<Key>, groups: Groups, r: nat, upTo: nat)
    requires r <= upTo && Exhausted(keys, groups, r)
    ensures Rounds(keys, groups, upTo) == Rounds(keys, groups, r)
  {
    if r < upTo {
      var q := upTo - 1;
      var (done, round) := (Rounds(keys, groups, q), Round(keys, groups, q, |keys|));
      RoundsStop(keys, groups, r, q);
      EmptyRound(keys, groups, q, |keys|);
      RoundsStep(keys, groups, q);
      assert done + round == done;
    }
  }

  lemma {:induction false} OwnFits(pairs: seq<Pair>, k: Key)
    ensures |Own(pairs, k)| <= |pairs|
    ensures forall i :: 0 <= i < |Own(pairs, k)| ==> KeyOf(Own(pairs, k)[i]) == k
  {
    if pairs != [] {
      OwnFits(pairs[..|pairs| - 1], k);
    }
  }

  lemma SameBagSameSize(a: seq<Pair>, b: seq<Pair>)
    requires multiset(a) == multiset(b)
    ensures |a| == |b| && forall p :: p in a ==> p in b
  {
    assert |multiset(a)| == |multiset(b)|;
    forall p | p in a ensures p in b {
      assert p in multiset(a);
    }
  }

  lemma ShuffledGroups(pairs: seq<Pair>, keys: seq<Key>, groups: Groups)
    requires Shuffled(pairs, keys, groups)
    ensures Sorted(keys, groups) && Exhausted(keys, groups, |pairs|)
  {
    forall k | k in groups
      ensures |groups[k]| <= |pairs| && forall i :: 0 <= i < |groups[k]| ==> KeyOf(groups[k][i]) == k
    {
      SameBagSameSize(groups[k], Own(pairs, k));
      OwnFits(pairs, k);
      forall i | 0 <= i < |groups[k]| ensures KeyOf(groups[k][i]) == k {
        assert groups[k][i] in Own(pairs, k);
      }
    }
  }

  /** A group's pairs, over all the rounds. */
  lemma GroupDrawn(pairs: seq<Pair>, keys: seq<Key>, groups: Groups, i: nat, p: Pair)
    requires Shuffled(pairs, keys, groups) && i < |keys| && keys[i] == KeyOf(p)
    ensures Copies(Own(Rounds(keys, groups, |pairs|), keys[i]), p) == Copies(Own(pairs, keys[i]), p)
  {
    var g := GroupOf(groups, keys[i]);
    ShuffledGroups(pairs, keys, groups);
    OwnRounds(keys, groups, |pairs|, i);
    DrawnConserves(g, |pairs|, p);
    assert Rest(g, |pairs|) == [];
  }

  lemma RoundsDrawEach(pairs: seq<Pair>, keys: seq<Key>, groups: Groups, p: Pair)
    requires Shuffled(pairs, keys, groups)
    ensures Copies(Rounds(keys, groups, |pairs|), p) == Copies(pairs, p)
  {
    var (all, k) := (Rounds(keys, groups, |pairs|), KeyOf(p));
    OwnCopies(all, k, p);
    OwnCopies(pairs, k, p);
    if k in keys {
      var i :| 0 <= i < |keys| && keys[i] == k;
      GroupDrawn(pairs, keys, groups, i, p);
    } else {
      ShuffledGroups(pairs, keys, groups);
      OtherRounds(keys, groups, |pairs|, k);
      assert p !in pairs;
    }
  }

  /** All the rounds together draw every pair as often as it was given. */
  lemma RoundsAreInput(pairs: seq<Pair>, keys: seq<Key>, groups: Groups)
    requires Shuffled(pairs, keys, groups)
    ensures multiset(Rounds(keys, groups, |pairs|)) == multiset(pairs) && |Rounds(keys, groups, |pairs|)| == |pairs|
  {
    forall p: Pair ensures Copies(Rounds(keys, groups, |pairs|), p) == Copies(pairs, p) {
      RoundsDrawEach(pairs, keys, groups, p);
    }
    SameCopies(Rounds(keys, groups, |pairs|), pairs);
  }

  lemma SameCopies(a: seq<Pair>, b: seq<Pair>)
    requires forall p :: Copies(a, p) == Copies(b, p)
    ensures multiset(a) == multiset(b) && |a| == |b|
  {
    assert multiset(a) == multiset(b) by {
      forall p: Pair ensures multiset(a)[p] == multiset(b)[p] {
        assert Copies(a, p) == Copies(b, p);
      }
    }
    assert |multiset(a)| == |multiset(b)|;
  }

  /** The draw takes min(n, all) pairs, none more often than it was given, and fairly. */
  lemma DrawIsFair(pairs: seq<Pair>, keys: seq<Key>, groups: Groups, n: int)
    requires Shuffled(pairs, keys, groups)
    ensures var out := Take(Rounds(keys, groups, |pairs|), n);
            && |out| == Max(0, Min(n, |pairs|))
            && multiset(out) <= multiset(pairs)
            && Fair(keys, groups, out)
  {
    var all := Rounds(keys, groups, |pairs|);
    RoundsAreInput(pairs, keys, groups);
    ShuffledGroups(pairs, keys, groups);
    var m := Max(0, Min(n, |all|));
    var r := PrefixWithin(keys, groups, |pairs|, m);
    WithinIsFair(keys, groups, all[..m], r);
    PrefixBag(all, m);
  }

  lemma PrefixBag(s: seq<Pair>, m: nat)
    requires m <= |s|
    ensures multiset(s[..m]) <= multiset(s)
  {
    assert s == s[..m] + s[m..];
  }

  lemma TakeGrows(a: seq<Pair>, b: seq<Pair>, n: int)
    ensures n <= |a| ==> Take(a + b, n) == Take(a, n)
    ensures |a + b| <= n ==> Take(a + b, n) == Take(a, n) + b
  {
    if n <= |a| {
      assert Take(a + b, n) == Take(a, n);
    }
  }

  ghost predicate InAll(keys: seq<Key>, groups: Groups) { forall i :: 0 <= i < |keys| ==> keys[i] in groups }

  /** The groups part of the way through a round: the first j have given, the others not. */
  ghost predicate Midway(keys: seq<Key>, start: Groups, groups: Groups, r: nat, j: nat) {
    && InAll(keys, groups) && InAll(keys, start)
    && (forall i :: 0 <= i < |keys| ==>
          groups[keys[i]] == Rest(start[keys[i]], if i < j then r + 1 else r))
  }

  /** The draw so far, in round r before the turn of group j. */
  ghost predicate Drawing(keys: seq<Key>, start: Groups, groups: Groups, r: nat, j: nat, n: int, out: seq<Pair>)
    requires j <= |keys|
  {
    var drawn := Rounds(keys, start, r) + Round(keys, start, r, j);
    out == Take(drawn, n) && (|drawn| <= n ==> Midway(keys, start, groups, r, j))
  }

  /** One group's turn: it gives its last pair, if it has one. */
  lemma Turn(keys: seq<Key>, start: Groups, groups: Groups, r: nat, j: nat)
    requires j < |keys| && Midway(keys, start, groups, r, j)
    requires forall i, l :: 0 <= i < l < |keys| ==> keys[i] != keys[l]
    ensures var g := groups[keys[j]];
            && Given(start[keys[j]], r) == (if g == [] then [] else [g[|g| - 1]])
            && Midway(keys, start, if g == [] then groups else groups[keys[j] := g[..|g| - 1]], r, j + 1)
  {
  }

  lemma TurnDraws(keys: seq<Key>, start: Groups, k: Key, g: seq<Pair>, groups: Groups, r: nat, j: nat, n: int,
                  out: seq<Pair>, groups': Groups, next: nat, out': seq<Pair>)
    requires j < |keys| && next == j + 1 && Drawing(keys, start, groups, r, j, n, out)
    requires InAll(keys, groups) && InAll(keys, start) && Sorted(keys, start)
    requires k == keys[j] && g == groups[k]
    requires groups' == if g != [] && |out| < n then groups[k := g[..|g| - 1]] else groups
    requires out' == if g != [] && |out| < n then out + [g[|g| - 1]] else out
    ensures Drawing(keys, start, groups', r, next, n, out')
  {
    var (before, given) := (Rounds(keys, start, r) + Round(keys, start, r, j), Given(start[keys[j]], r));
    RoundStep(keys, start, r, j);
    Assoc(Rounds(keys, start, r), Round(keys, start, r, j), given);
    TakeGrows(before, given, n);
    if |before| <= n {
      Turn(keys, start, groups, r, j);
    }
  }

  lemma RoundEnds(keys: seq<Key>, start: Groups, groups: Groups, r: nat, j: nat, n: int, out: seq<Pair>,
                  q: nat)
    requires j == |keys| && q == r + 1 && Drawing(keys, start, groups, r, j, n, out)
    ensures Drawing(keys, start, groups, q, 0, n, out)
  {
    RoundsStep(keys, start, r);
    assert Rounds(keys, start, q) + Round(keys, start, q, 0) == Rounds(keys, start, q);
  }

  /** A draw that has enough, or has emptied every group, is the whole draw. */
  lemma DrawEnds(pairs: seq<Pair>, keys: seq<Key>, start: Groups, groups: Groups, r: nat, n: int, out: seq<Pair>)
    requires Shuffled(pairs, keys, start) && r <= |pairs| && Drawing(keys, start, groups, r, 0, n, out)
    requires InAll(keys, groups)
    requires |out| >= n || forall i :: 0 <= i < |keys| ==> groups[keys[i]] == []
    ensures out == Take(Rounds(keys, start, |pairs|), n)
  {
    var (done, all) := (Rounds(keys, start, r), Rounds(keys, start, |pairs|));
    assert done + Round(keys, start, r, 0) == done;
    if n <= |done| {
      RoundsGrow(keys, start, r, |pairs|);
      TakeGrows(done, all[|done|..], n);
      assert done + all[|done|..] == all;
    } else {
      assert forall i :: 0 <= i < |keys| ==> Rest(start[keys[i]], r) == [];
      RoundsStop(keys, start, r, |pairs|);
    }
  }

  /** While a group has pairs left, the round is one of the first `size`. */
  lemma StillRound(keys: seq<Key>, start: Groups, groups: Groups, r: nat, n: int, out: seq<Pair>, size: nat)
    requires Drawing(keys, start, groups, r, 0, n, out) && |out| < n && Exhausted(keys, start, size)
    requires InAll(keys, groups)
    requires exists i :: 0 <= i < |keys| && groups[keys[i]] != []
    ensures r < size
  {
    var i :| 0 <= i < |keys| && groups[keys[i]] != [];
    assert groups[keys[i]] == Rest(start[keys[i]], r);
    assert |GroupOf(start, keys[i])| <= size;
  }

  method PickCalibrationPairs(pairs: seq<Pair>, n: int, keys: seq<Key>, shuffled: Groups) returns (out: seq<Pair>)
    requires Shuffled(pairs, keys, shuffled)
    ensures out == Take(Rounds(keys, shuffled, |pairs|), n)
    ensures |out| == Max(0, Min(n, |pairs|))
    ensures multiset(out) <= multiset(pairs)
    ensures Fair(keys, shuffled, out)
  {
    var groups := shuffled;
    out := [];
    ghost var r := 0;
    ShuffledGroups(pairs, keys, shuffled);
    while |out| < n && exists i :: 0 <= i < |keys| && groups[keys[i]] != []
      invariant InAll(keys, groups) && r <= |pairs|
      invariant Drawing(keys, shuffled, groups, r, 0, n, out)
      decreases |pairs| - r
    {
      StillRound(keys, shuffled, groups, r, n, out, |pairs|);
      var j := 0;
      while j < |keys|
        invariant 0 <= j <= |keys| && InAll(keys, groups)
        invariant Drawing(keys, shuffled, groups, r, j, n, out)
      {
        var k := keys[j];
        var g := groups[k];
        ghost var (was, before, turn) := (groups, out, j);
        if g != [] && |out| < n {
          out := out + [g[|g| - 1]];
          groups := groups[k := g[..|g| - 1]];
        }
        j := j + 1;
        TurnDraws(keys, shuffled, k, g, was, r, turn, n, before, groups, j, out);
      }
      ghost var ended := r;
      r := r + 1;
      RoundEnds(keys, shuffled, groups, ended, j, n, out, r);
    }
    DrawEnds(pairs, keys, shuffled, groups, r, n, out);
    DrawIsFair(pairs, keys, shuffled, n);
  }
}
