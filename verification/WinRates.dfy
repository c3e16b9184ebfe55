/** eval/crazeeval/report.py: the Wilson score interval and the mirrored win matrix. Numbers are
    reals. The square root is a parameter: any non-negative real whose square is what
    `math.sqrt` is given. */
module WinRates {
  import opened Common

  // ---- the Wilson interval -------------------------------------------------

  datatype Interval = Interval(lo: real, hi: real)

  predicate IsRoot(s: real, x: real) { s >= 0.0 && s * s == x }

  /** What the root is taken of. */
  function Spread(successes: real, n: int, z: real): real
    requires n > 0
  {
    var p := successes / n as real;
    p * (1.0 - p) / n as real + z * z / (4.0 * n as real * n as real)
  }

  function Denom(n: int, z: real): (d: real)
    requires n > 0
    ensures d >= 1.0
  {
    Square(z);
    Quotient(z * z, n as real);
    1.0 + z * z / n as real
  }

  function Centre(successes: real, n: int, z: real): real
    requires n > 0
  {
    (successes / n as real + z * z / (2.0 * n as real)) / Denom(n, z)
  }

  function Half(n: int, z: real, root: real): real
    requires n > 0
  {
    z * root / Denom(n, z)
  }

  function Wilson(successes: real, n: int, z: real, root: real): Interval {
    if n <= 0 then Interval(0.0, 1.0)
    else
      var (centre, half) := (Centre(successes, n, z), Half(n, z, root));
      Interval(MaxReal(0.0, centre - half), MinReal(1.0, centre + half))
  }

  lemma Square(x: real)
    ensures x * x >= 0.0
  {
  }

  lemma Quotient(x: real, y: real)
    requires y > 0.0
    ensures x >= 0.0 ==> x / y >= 0.0
    ensures (x / y) * y == x
  {
  }

  /** The score test: x is a plausible proportion when p lies within z standard errors of it. */
  predicate Plausible(x: real, successes: real, n: int, z: real)
    requires n > 0
  {
    var p := successes / n as real;
    n as real * (p - x) * (p - x) <= z * z * x * (1.0 - x)
  }

  /** centre and half without division. */
  lemma Scaled(successes: real, n: int, z: real, root: real)
    requires n > 0
    ensures var N := n as real;
            && N + z * z > 0.0
            && Centre(successes, n, z) * (N + z * z) == successes + z * z / 2.0
            && Half(n, z, root) * (N + z * z) == z * (N * root)
  {
    var (N, d) := (n as real, Denom(n, z));
    Square(z);
    Quotient(z * z, N);
    assert d * N == N + z * z;
    Quotient(successes / N + z * z / (2.0 * N), d);
    Quotient(z * root, d);
    assert (successes / N + z * z / (2.0 * N)) * N == successes + z * z / 2.0;
  }

  /** The root, scaled by n. */
  lemma ScaledRoot(successes: real, n: int, z: real, root: real)
    requires n > 0 && IsRoot(root, Spread(successes, n, z))
    ensures var (N, p) := (n as real, successes / n as real);
            (N * root) * (N * root) == N * p * (1.0 - p) + z * z / 4.0
  {
  }

  lemma Cancel(m: real, x: real, y: real)
    requires m > 0.0 && m * x == m * y
    ensures x == y
  {
  }

  /** The product of the two ends, from their sum and difference. */
  lemma Ends(N: real, W: real, p: real, c: real, h: real, t: real)
    requires N + W > 0.0 && c * (N + W) == N * p + W / 2.0
    requires (h * (N + W)) * (h * (N + W)) == W * (t * t) && t * t == N * p * (1.0 - p) + W / 4.0
    ensures (N + W) * (c * c - h * h) == N * p * p
  {
    var M := N + W;
    calc {
      M * (M * (c * c - h * h));
      (c * M) * (c * M) - (h * M) * (h * M);
      (N * p + W / 2.0) * (N * p + W / 2.0) - W * (N * p * (1.0 - p) + W / 4.0);
      (N * p) * (N * p) + N * p * W + W * W / 4.0 - W * (N * p) + W * (N * p) * p - W * W / 4.0;
      M * (N * p * p);
    }
    Cancel(M, M * (c * c - h * h), N * p * p);
  }

  lemma Expand(N: real, W: real, p: real, c: real, h: real, x: real)
    requires c * (N + W) == N * p + W / 2.0 && (N + W) * (c * c - h * h) == N * p * p
    ensures (N + W) * ((x - (c - h)) * (x - (c + h))) == N * (p - x) * (p - x) - W * x * (1.0 - x)
  {
    var M := N + W;
    calc {
      M * ((x - (c - h)) * (x - (c + h)));
      M * (x * x) - 2.0 * (c * M) * x + M * (c * c - h * h);
      M * (x * x) - 2.0 * (N * p + W / 2.0) * x + N * p * p;
      N * (p - x) * (p - x) - W * x * (1.0 - x);
    }
  }

  lemma SquareOf(x: real, z: real, t: real)
    requires x == z * t
    ensures x * x == (z * z) * (t * t)
  {
  }

  /** The test's two sides differ by the product of the distances to the unclamped ends. */
  lemma Factors(successes: real, n: int, z: real, root: real, x: real)
    requires n > 0 && IsRoot(root, Spread(successes, n, z))
    ensures var (N, W, p) := (n as real, z * z, successes / n as real);
            var (c, h) := (Centre(successes, n, z), Half(n, z, root));
            && N + W > 0.0
            && (N + W) * ((x - (c - h)) * (x - (c + h))) == N * (p - x) * (p - x) - W * x * (1.0 - x)
  {
    var (N, W, p) := (n as real, z * z, successes / n as real);
    var (c, h) := (Centre(successes, n, z), Half(n, z, root));
    Scaled(successes, n, z, root);
    ScaledRoot(successes, n, z, root);
    Quotient(successes, N);
    var t := N * root;
    SquareOf(h * (N + W), z, t);
    Ends(N, W, p, c, h, t);
    Expand(N, W, p, c, h, x);
  }

  lemma HalfNonNegative(n: int, z: real, root: real)
    requires n > 0 && z >= 0.0 && root >= 0.0
    ensures Half(n, z, root) >= 0.0
  {
    Quotient(z * root, Denom(n, z));
  }

  lemma Positive(x: real, y: real)
    requires x > 0.0 && y > 0.0
    ensures x * y > 0.0
  {
  }

  lemma Product(x: real, y: real)
    requires x >= 0.0 && y >= 0.0
    ensures x * y >= 0.0
  {
  }

  lemma Between(lo: real, hi: real, x: real, m: real)
    requires lo <= hi && m > 0.0
    ensures lo <= x <= hi <==> m * ((x - lo) * (x - hi)) <= 0.0
  {
    var (a, b) := (x - lo, x - hi);
    if x < lo {
      Positive(-a, -b);
      assert a * b == -a * -b;
      Positive(m, a * b);
    } else if x > hi {
      Positive(a, b);
      Positive(m, a * b);
    } else {
      Product(a, -b);
      Product(m, a * -b);
      assert m * (a * b) == -(m * (a * -b));
    }
  }

  /** The unclamped interval holds exactly the plausible proportions. */
  lemma EndsBoundPlausible(successes: real, n: int, z: real, root: real, x: real)
    requires n > 0 && z >= 0.0 && IsRoot(root, Spread(successes, n, z))
    ensures var (c, h) := (Centre(successes, n, z), Half(n, z, root));
            c - h <= x <= c + h <==> Plausible(x, successes, n, z)
  {
    HalfNonNegative(n, z, root);
    Factors(successes, n, z, root, x);
    var (c, h) := (Centre(successes, n, z), Half(n, z, root));
    Between(c - h, c + h, x, n as real + z * z);
  }

  lemma Proportion(successes: real, n: int)
    requires n > 0 && 0.0 <= successes <= n as real
    ensures 0.0 <= successes / n as real <= 1.0
  {
    Quotient(successes, n as real);
    Quotient(n as real - successes, n as real);
  }

  /** Outside [0, 1] the two sides of the test have opposite signs. */
  lemma OutsideFails(N: real, W: real, p: real, x: real)
    requires N > 0.0 && W >= 0.0 && 0.0 <= p <= 1.0 && (x < 0.0 || x > 1.0)
    ensures N * (p - x) * (p - x) > 0.0 >= W * x * (1.0 - x)
  {
    if x < 0.0 {
      Positive(N, p - x);
      Positive(N * (p - x), p - x);
      Product(W, -x);
      Product(W * -x, 1.0 - x);
    } else {
      Positive(N, x - p);
      Positive(N * (x - p), x - p);
      Product(W, x);
      Product(W * x, x - 1.0);
    }
  }

  /** A plausible proportion is one: it lies between 0 and 1. */
  lemma PlausibleIsProportion(x: real, successes: real, n: int, z: real)
    requires n > 0 && 0.0 <= successes <= n as real && Plausible(x, successes, n, z)
    ensures 0.0 <= x <= 1.0
  {
    Proportion(successes, n);
    Square(z);
    if x < 0.0 || x > 1.0 {
      OutsideFails(n as real, z * z, successes / n as real, x);
    }
  }

  /** The observed proportion is plausible. */
  lemma ObservedIsPlausible(successes: real, n: int, z: real)
    requires n > 0 && 0.0 <= successes <= n as real
    ensures Plausible(successes / n as real, successes, n, z)
  {
    var p := successes / n as real;
    Proportion(successes, n);
    Square(z);
    Product(z * z, p);
    Product(z * z * p, 1.0 - p);
  }

  /** The interval is the set of proportions the score test does not reject; it lies in [0, 1]
      before clamping, which therefore changes nothing, and holds the observed proportion. */
  lemma WilsonIsScoreTest(successes: real, n: int, z: real, root: real, x: real)
    requires n > 0 && 0.0 <= successes <= n as real && z >= 0.0 && IsRoot(root, Spread(successes, n, z))
    ensures var (w, c, h) := (Wilson(successes, n, z, root), Centre(successes, n, z), Half(n, z, root));
            && w.lo == c - h && w.hi == c + h
            && 0.0 <= w.lo <= successes / n as real <= w.hi <= 1.0
            && (w.lo <= x <= w.hi <==> Plausible(x, successes, n, z))
  {
    var (c, h, p) := (Centre(successes, n, z), Half(n, z, root), successes / n as real);
    HalfNonNegative(n, z, root);
    EndsBoundPlausible(successes, n, z, root, x);
    EndsBoundPlausible(successes, n, z, root, p);
    ObservedIsPlausible(successes, n, z);
    EndsBoundPlausible(successes, n, z, root, c - h);
    PlausibleIsProportion(c - h, successes, n, z);
    EndsBoundPlausible(successes, n, z, root, c + h);
    PlausibleIsProportion(c + h, successes, n, z);
  }

  lemma SpreadReflects(successes: real, n: int, z: real)
    requires n > 0
    ensures Spread(n as real - successes, n, z) == Spread(successes, n, z)
  {
    Failures(successes, n as real);
    Reflect(successes / n as real, (n as real - successes) / n as real);
  }

  /** Counting the failures instead reflects the interval about one half. */
  lemma WilsonReflects(successes: real, n: int, z: real, root: real)
    requires n > 0
    ensures Spread(n as real - successes, n, z) == Spread(successes, n, z)
    ensures var (w, v) := (Wilson(successes, n, z, root), Wilson(n as real - successes, n, z, root));
            v.lo == 1.0 - w.hi && v.hi == 1.0 - w.lo
  {
    var N := n as real;
    SpreadReflects(successes, n, z);
    Scaled(successes, n, z, root);
    Scaled(N - successes, n, z, root);
    var (c, d, M) := (Centre(successes, n, z), Centre(N - successes, n, z), N + z * z);
    Distribute(M, c, d);
    Cancel(M, c + d, 1.0);
  }

  lemma Distribute(m: real, c: real, d: real)
    ensures m * (c + d) == c * m + d * m
  {
  }

  lemma Reflect(p: real, q: real)
    requires q == 1.0 - p
    ensures q * (1.0 - q) == p * (1.0 - p)
  {
  }

  lemma Failures(successes: real, N: real)
    requires N > 0.0
    ensures (N - successes) / N == 1.0 - successes / N
  {
    Quotient(successes, N);
    Quotient(N - successes, N);
    Cancel(N, (N - successes) / N, 1.0 - successes / N);
  }

  // ---- win rates -----------------------------------------------------------

  datatype Tally = Tally(wins: nat, ties: nat, losses: nat) {
    function N(): nat { wins + ties + losses }

    function Score(): real { wins as real + 0.5 * ties as real }

    function Swap(): Tally { Tally(losses, ties, wins) }
  }

  function AddOutcome(t: Tally, outcome: real): Tally {
    if outcome == 1.0 then t.(wins := t.wins + 1)
    else if outcome == 0.0 then t.(losses := t.losses + 1)
    else t.(ties := t.ties + 1)
  }

  class WinRate {
    var wins: nat
    var ties: nat
    var losses: nat

    function State(): Tally reads this { Tally(wins, ties, losses) }

    constructor ()
      ensures State() == Tally(0, 0, 0)
    {
      wins, ties, losses := 0, 0, 0;
    }

    method Add(outcome: real)
      modifies this
      ensures State() == AddOutcome(old(State()), outcome)
    {
      if outcome == 1.0 {
        wins := wins + 1;
      } else if outcome == 0.0 {
        losses := losses + 1;
      } else {
        ties := ties + 1;
      }
    }
  }

  /** A verdict: `hx`, `hy` empty when missing; `winner` None when there is no result. */
  datatype Verdict = Verdict(model: string, task: string, hx: string, hy: string, bothOrders: bool,
                             winner: Option<string>)

  datatype Filter = Filter(splits: map<string, string>, split: Option<string>, model: Option<string>,
                           bothOrdersOnly: bool)

  predicate Passes(f: Filter, v: Verdict) {
    && (f.model.Some? ==> v.model == f.model.value)
    && (f.split.Some? ==> v.task in f.splits && f.splits[v.task] == f.split.value)
    && (f.bothOrdersOnly ==> v.bothOrders)
    && v.hx != "" && v.hy != "" && v.hx != v.hy && v.winner.Some?
  }

  /** 1, 0.5 or 0 from the x side. */
  function OutcomeX(v: Verdict): real {
    if v.winner == Some("tie") then 0.5 else if v.winner == Some("x") then 1.0 else 0.0
  }

  /** `harness` against `other`. */
  datatype Pairing = Pairing(harness: string, other: string) {
    function Mirror(): Pairing { Pairing(other, harness) }
  }

  function Sides(v: Verdict): Pairing { Pairing(v.hx, v.hy) }

  /** A cell after one counted verdict. */
  function After(v: Verdict, k: Pairing, t: Tally): Tally {
    if k == Sides(v) then AddOutcome(t, OutcomeX(v))
    else if k == Sides(v).Mirror() then AddOutcome(t, 1.0 - OutcomeX(v))
    else t
  }

  /** Every counted verdict of a pairing, from the side of its harness. */
  function Cell(f: Filter, vs: seq<Verdict>, k: Pairing): Tally {
    if vs == [] then Tally(0, 0, 0)
    else
      var (t, v) := (Cell(f, vs[..|vs| - 1], k), vs[|vs| - 1]);
      if Passes(f, v) then After(v, k, t) else t
  }

  /** A verdict that counts for `k.harness` against `k.other`: it passes the filter, and has the
      two harnesses on one side or the other. */
  predicate CountsFor(f: Filter, k: Pairing, v: Verdict) {
    && (f.model.Some? ==> v.model == f.model.value)
    && (f.split.Some? ==> v.task in f.splits && f.splits[v.task] == f.split.value)
    && (f.bothOrdersOnly ==> v.bothOrders)
    && v.hx != "" && v.hy != "" && v.winner.Some?
    && ((v.hx == k.harness && v.hy == k.other) || (v.hx == k.other && v.hy == k.harness))
  }

  /** The harness is the named winner's side. */
  function WonBy(f: Filter, k: Pairing): Verdict -> bool {
    (v: Verdict) => CountsFor(f, k, v)
                    && ((v.hx == k.harness && v.winner == Some("x"))
                        || (v.hy == k.harness && v.winner.value != "x" && v.winner.value != "tie"))
  }

  function TiedIn(f: Filter, k: Pairing): Verdict -> bool {
    (v: Verdict) => CountsFor(f, k, v) && v.winner == Some("tie")
  }

  function LostBy(f: Filter, k: Pairing): Verdict -> bool {
    (v: Verdict) => CountsFor(f, k, v)
                    && ((v.hy == k.harness && v.winner == Some("x"))
                        || (v.hx == k.harness && v.winner.value != "x" && v.winner.value != "tie"))
  }

  /** A cell counts the verdicts that its harness won, tied and lost; its score counts a tie half.
      A winner other than "x" and "tie" is taken for "y". */
  lemma {:induction false} CellCounts(f: Filter, vs: seq<Verdict>, k: Pairing)
    requires k.harness != k.other
    ensures Cell(f, vs, k)
         == Tally(|Where(vs, WonBy(f, k))|, |Where(vs, TiedIn(f, k))|, |Where(vs, LostBy(f, k))|)
    ensures Cell(f, vs, k).Score() == |Where(vs, WonBy(f, k))| as real + |Where(vs, TiedIn(f, k))| as real / 2.0
  {
    if vs != [] {
      CellCounts(f, vs[..|vs| - 1], k);
      WhereLast(vs, WonBy(f, k));
      WhereLast(vs, TiedIn(f, k));
      WhereLast(vs, LostBy(f, k));
    }
  }

  /** No harness meets itself. */
  lemma {:induction false} NoneAgainstItself(f: Filter, vs: seq<Verdict>, k: Pairing)
    requires k.harness == k.other
    ensures Cell(f, vs, k) == Tally(0, 0, 0)
  {
    if vs != [] {
      NoneAgainstItself(f, vs[..|vs| - 1], k);
    }
  }

  /** Each cell mirrors the other side's: wins for losses, the same n, rates that sum to one. */
  lemma {:induction false} CellsMirror(f: Filter, vs: seq<Verdict>, k: Pairing)
    requires k.harness != k.other
    ensures var (t, u) := (Cell(f, vs, k), Cell(f, vs, k.Mirror()));
            u == t.Swap() && u.N() == t.N() && t.Score() + u.Score() == t.N() as real
  {
    if vs != [] {
      CellsMirror(f, vs[..|vs| - 1], k);
    }
  }

  /** And their intervals reflect each other about one half, whatever the root. */
  lemma IntervalsMirror(f: Filter, vs: seq<Verdict>, k: Pairing, z: real, root: real)
    requires k.harness != k.other
    ensures var (t, u) := (Cell(f, vs, k), Cell(f, vs, k.Mirror()));
            var (w, v) := (Wilson(t.Score(), t.N(), z, root), Wilson(u.Score(), u.N(), z, root));
            && (t.N() > 0 && u.N() > 0 ==> Spread(t.Score(), t.N(), z) == Spread(u.Score(), u.N(), z))
            && v.lo == 1.0 - w.hi && v.hi == 1.0 - w.lo
  {
    CellsMirror(f, vs, k);
    SwapReflects(Cell(f, vs, k), z, root);
  }

  lemma SwapReflects(t: Tally, z: real, root: real)
    ensures var u := t.Swap();
            var (w, v) := (Wilson(t.Score(), t.N(), z, root), Wilson(u.Score(), u.N(), z, root));
            && (t.N() > 0 ==> Spread(t.Score(), t.N(), z) == Spread(u.Score(), u.N(), z))
            && v.lo == 1.0 - w.hi && v.hi == 1.0 - w.lo
  {
    if t.N() > 0 {
      WilsonReflects(t.Score(), t.N(), z, root);
    }
  }

  /** The matrix's cells are distinct objects. */
  ghost predicate Distinct(m: map<Pairing, WinRate>) {
    forall k, l :: k in m && l in m && k != l ==> m[k] != m[l]
  }

  /** `m[k].add(outcome)`, with a new cell when there is none. */
  method AddTo(m: map<Pairing, WinRate>, k: Pairing, outcome: real) returns (r: map<Pairing, WinRate>)
    requires Distinct(m)
    modifies if k in m then {m[k]} else {}
    ensures r.Keys == m.Keys + {k} && Distinct(r)
    ensures forall l :: l in m ==> r[l] == m[l]
    ensures k !in m ==> fresh(r[k])
    ensures r[k].State() == AddOutcome(if k in m then old(m[k].State()) else Tally(0, 0, 0), outcome)
  {
    r := m;
    if k !in m {
      var w := new WinRate();
      r := m[k := w];
    }
    r[k].Add(outcome);
  }

  /** One counted verdict, added to both sides' cells. */
  method AddVerdict(m: map<Pairing, WinRate>, v: Verdict) returns (r: map<Pairing, WinRate>)
    requires Distinct(m) && v.hx != v.hy
    modifies set k | k in m && (k == Sides(v) || k == Sides(v).Mirror()) :: m[k]
    ensures r.Keys == m.Keys + {Sides(v), Sides(v).Mirror()} && Distinct(r)
    ensures forall k :: k in r ==> if k in m then r[k] == m[k] else fresh(r[k])
    ensures forall k :: k in r ==>
              r[k].State() == After(v, k, if k in m then old(m[k].State()) else Tally(0, 0, 0))
  {
    var (o, there, back) := (OutcomeX(v), Sides(v), Sides(v).Mirror());
    r := AddTo(m, there, o);
    ghost var first := r;
    label Between:
    assert there != back && back.Mirror() == there;
    r := AddTo(r, back, 1.0 - o);
    forall k | k in r
      ensures r[k].State() == After(v, k, if k in m then old(m[k].State()) else Tally(0, 0, 0))
    {
      if k == back {
        assert back in m ==> first[back] == m[back] && old@Between(first[back].State()) == old(m[back].State());
      } else {
        assert r[k] == first[k] && r[k].State() == old@Between(first[k].State());
        assert k != there ==> first[k] == m[k];
      }
    }
  }

  lemma CellStep(f: Filter, vs: seq<Verdict>, i: nat, k: Pairing)
    requires i < |vs|
    ensures var t := Cell(f, vs[..i], k);
            Cell(f, vs[..i + 1], k) == if Passes(f, vs[i]) then After(vs[i], k, t) else t
  {
    assert vs[..i + 1][..i] == vs[..i];
  }

  lemma AfterCounts(v: Verdict, k: Pairing, t: Tally)
    ensures After(v, k, t).N() > 0 <==> t.N() > 0 || k == Sides(v) || k == Sides(v).Mirror()
  {
  }

  /** `keys` are the pairings with a counted verdict. */
  ghost predicate Complete(f: Filter, vs: seq<Verdict>, keys: set<Pairing>) {
    forall k :: k in keys <==> Cell(f, vs, k).N() > 0
  }

  lemma CompleteStep(f: Filter, vs: seq<Verdict>, i: nat, keys: set<Pairing>)
    requires i < |vs| && Complete(f, vs[..i], keys)
    ensures Complete(f, vs[..i + 1], if Passes(f, vs[i]) then keys + {Sides(vs[i]), Sides(vs[i]).Mirror()} else keys)
  {
    var (v, before, after) := (vs[i], vs[..i], vs[..i + 1]);
    forall k: Pairing
      ensures Cell(f, after, k).N() > 0 <==> k in keys || (Passes(f, v) && (k == Sides(v) || k == Sides(v).Mirror()))
    {
      CellStep(f, vs, i, k);
      AfterCounts(v, k, Cell(f, before, k));
    }
  }

  /** What a cell holds one verdict later, from what the matrix held. */
  lemma CellLater(f: Filter, vs: seq<Verdict>, i: nat, keys: set<Pairing>, k: Pairing, held: Tally)
    requires i < |vs| && Passes(f, vs[i]) && Complete(f, vs[..i], keys)
    requires k in keys ==> held == Cell(f, vs[..i], k)
    requires k !in keys ==> held == Tally(0, 0, 0)
    ensures Cell(f, vs[..i + 1], k) == After(vs[i], k, held)
  {
    CellStep(f, vs, i, k);
    var t := Cell(f, vs[..i], k);
    assert k !in keys ==> t.N() == 0;
  }

  ghost predicate Filled(f: Filter, vs: seq<Verdict>, m: map<Pairing, WinRate>)
    reads m.Values
  {
    forall k :: k in m ==> m[k].State() == Cell(f, vs, k)
  }

  /** One turn of the loop of `win_matrix`. */
  method Count(f: Filter, verdicts: seq<Verdict>, i: nat, m: map<Pairing, WinRate>) returns (r: map<Pairing, WinRate>)
    requires i < |verdicts| && Distinct(m)
    requires Complete(f, verdicts[..i], m.Keys) && Filled(f, verdicts[..i], m)
    modifies m.Values
    ensures Distinct(r) && Complete(f, verdicts[..i + 1], r.Keys) && Filled(f, verdicts[..i + 1], r)
    ensures forall k :: k in r ==> r[k] in m.Values || fresh(r[k])
  {
    var v := verdicts[i];
    CompleteStep(f, verdicts, i, m.Keys);
    if Passes(f, v) {
      r := AddVerdict(m, v);
      forall k | k in r ensures r[k].State() == Cell(f, verdicts[..i + 1], k) {
        CellLater(f, verdicts, i, m.Keys, k, if k in m then old(m[k].State()) else Tally(0, 0, 0));
      }
    } else {
      r := m;
      forall k | k in r ensures r[k].State() == Cell(f, verdicts[..i + 1], k) {
        CellStep(f, verdicts, i, k);
      }
    }
  }

  /** `win_matrix`: a cell for every pairing with a counted verdict, holding all of them. */
  method WinMatrix(f: Filter, verdicts: seq<Verdict>) returns (m: map<Pairing, WinRate>)
    ensures forall k :: k in m ==> m[k].State() == Cell(f, verdicts, k)
    ensures forall k :: k in m <==> Cell(f, verdicts, k).N() > 0
    ensures Distinct(m) && fresh(m.Values)
  {
    m := map[];
    var i := 0;
    while i < |verdicts|
      invariant 0 <= i <= |verdicts| && Distinct(m) && fresh(m.Values)
      invariant Complete(f, verdicts[..i], m.Keys) && Filled(f, verdicts[..i], m)
    {
      m := Count(f, verdicts, i, m);
      i := i + 1;
    }
    assert verdicts[..i] == verdicts;
  }
}
