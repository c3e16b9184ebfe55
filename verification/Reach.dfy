/** eval/crazeeval/checks.py: `check_shared_helper` and the memoised `reach` inside it, over
    the functions of a workspace. */
module SharedHelpers {
  import opened Common

  /** The workspace's functions in the order found, the short names each one calls (in the
      order its set is walked) and the markers each one names itself. */
  datatype Program = Program(funcs: seq<string>, calls: map<string, seq<string>>, direct: map<string, set<string>>)

  ghost predicate Valid(p: Program) {
    && (forall q :: q in p.funcs <==> q in p.calls)
    && (forall q :: q in p.funcs <==> q in p.direct)
  }

  /** `q.rsplit(".", 1)[-1]` */
  function Short(q: string): string {
    if '.' !in q then q
    else if q[|q| - 1] == '.' then ""
    else Short(q[..|q| - 1]) + [q[|q| - 1]]
  }

  /** `by_short.get(short, [])` */
  function ByShort(funcs: seq<string>, short: string): (r: seq<string>)
    ensures forall f :: f in r <==> f in funcs && Short(f) == short
  {
    if funcs == [] then []
    else if Short(funcs[0]) == short then [funcs[0]] + ByShort(funcs[1..], short)
    else ByShort(funcs[1..], short)
  }

  function Named(funcs: seq<string>, shorts: seq<string>): (r: seq<string>)
    ensures forall f :: f in r <==> f in funcs && Short(f) in shorts
  {
    if shorts == [] then [] else ByShort(funcs, shorts[0]) + Named(funcs, shorts[1..])
  }

  /** The functions a call inside `q` may mean, in the order `reach` visits them. */
  function Callees(p: Program, q: string): (r: seq<string>)
    requires Valid(p) && q in p.funcs
    ensures forall f :: f in r ==> f in p.funcs
  {
    Named(p.funcs, p.calls[q])
  }

  // ---- what reach computes -------------------------------------------------

  type Memo = map<string, set<string>>

  datatype Visit = Visit(found: set<string>, memo: Memo)

  function FuncSet(p: Program): set<string> { set q | q in p.funcs }

  function Reach(p: Program, q: string, seen: set<string>, memo: Memo): Visit
    requires Valid(p) && q in p.funcs && q !in seen
    decreases FuncSet(p) - seen, 1, 0
  {
    if q in memo then Visit(memo[q], memo)
    else
      var v := ReachAll(p, Callees(p, q), q, seen, p.direct[q], memo);
      Visit(v.found, v.memo[q := v.found])
  }

  /** The loop over the callees still to visit. */
  function ReachAll(p: Program, cs: seq<string>, q: string, seen: set<string>, found: set<string>, memo: Memo): Visit
    requires Valid(p) && q in p.funcs && q !in seen
    requires forall c :: c in cs ==> c in p.funcs
    decreases FuncSet(p) - seen, 0, |cs|
  {
    if cs == [] then Visit(found, memo)
    else if cs[0] in seen || cs[0] == q then ReachAll(p, cs[1..], q, seen, found, memo)
    else
      assert q in FuncSet(p) - seen;
      var v := Reach(p, cs[0], seen + {q}, memo);
      ReachAll(p, cs[1..], q, seen, found + v.found, v.memo)
  }

  class Checker {
    const program: Program
    var memo: Memo

    constructor (program: Program)
      ensures this.program == program && memo == map[]
    {
      this.program := program;
      memo := map[];
    }

    /** `reach(q, seen)`; every recursive call visits a function not yet on the way. */
    method Reaches(q: string, seen: set<string>) returns (found: set<string>)
      requires Valid(program) && q in program.funcs && q !in seen
      modifies this`memo
      ensures Visit(found, memo) == Reach(program, q, seen, old(memo))
      decreases FuncSet(program) - seen
    {
      if q in memo {
        return memo[q];
      }
      found := program.direct[q];
      var callees := Callees(program, q);
      var i := 0;
      while i < |callees|
        invariant 0 <= i <= |callees|
        invariant ReachAll(program, callees[i..], q, seen, found, memo)
                  == ReachAll(program, callees, q, seen, program.direct[q], old(memo))
      {
        var other := callees[i];
        assert callees[i..][1..] == callees[i + 1..];
        if other !in seen && other != q {
          assert q in FuncSet(program) - seen;
          var more := Reaches(other, seen + {q});
          found := found + more;
        }
        i := i + 1;
      }
      memo := memo[q := found];
    }

    /** The test of one function: it passes only for a helper, and for one that reaches no cycle. */
    method Helps(q: string, markers: set<string>, callers: seq<string>) returns (helps: bool)
      requires Valid(program) && Sound(program, memo) && Full(program, memo) && q in program.funcs
      modifies this`memo
      ensures Sound(program, memo) && Full(program, memo)
      ensures helps ==> IsHelper(program, markers, callers, q)
      ensures IsHelper(program, markers, callers, q) && Acyclic(program, q) ==> helps
    {
      if q in callers {
        return false;
      }
      HelperTest(program, markers, callers, q, memo);
      var found := Reaches(q, {});
      helps := markers <= found && CalledByAll(program, callers, q);
    }

    /** The helpers listed: each a function, other than the callers, that every caller calls and
        that reaches every marker. None is listed wrongly; none that reaches no cycle is missed. */
    method Helpers(markers: set<string>, callers: seq<string>) returns (helpers: seq<string>)
      requires Valid(program) && memo == map[]
      modifies this`memo
      ensures forall q :: q in helpers ==> IsHelper(program, markers, callers, q)
      ensures forall q :: IsHelper(program, markers, callers, q) && Acyclic(program, q) ==> q in helpers
    {
      helpers := [];
      var i := 0;
      while i < |program.funcs|
        invariant 0 <= i <= |program.funcs| && Sound(program, memo) && Full(program, memo)
        invariant forall q :: q in helpers ==> IsHelper(program, markers, callers, q)
        invariant forall q :: q in program.funcs[..i] && IsHelper(program, markers, callers, q) && Acyclic(program, q)
                    ==> q in helpers
      {
        var helps := Helps(program.funcs[i], markers, callers);
        if helps {
          helpers := helpers + [program.funcs[i]];
        }
        i := i + 1;
      }
    }

    /** The check's verdict. It passes only when every caller is there, names no marker itself,
        and a helper stands in for them; on a call graph without cycles, exactly then. */
    method Check(markers: set<string>, callers: seq<string>) returns (ok: bool)
      requires Valid(program) && memo == map[]
      modifies this`memo
      ensures ok ==>
                && markers != {} && callers != []
                && (forall c :: c in callers ==> c in program.funcs && program.direct[c] == {})
                && exists q :: IsHelper(program, markers, callers, q)
      ensures NoCycle(program) ==>
                (ok <==>
                  && markers != {} && callers != []
                  && (forall c :: c in callers ==> c in program.funcs && program.direct[c] == {})
                  && exists q :: IsHelper(program, markers, callers, q))
    {
      var missing, stillDirect := [], [];
      var i := 0;
      while i < |callers|
        invariant 0 <= i <= |callers|
        invariant missing == [] <==> forall c :: c in callers[..i] ==> c in program.funcs
        invariant stillDirect == [] <==> forall c :: c in callers[..i] && c in program.funcs ==> program.direct[c] == {}
      {
        var c := callers[i];
        if c !in program.funcs {
          missing := missing + [c];
        } else if program.direct[c] != {} {
          stillDirect := stillDirect + [c];
        }
        i := i + 1;
      }
      assert callers[..i] == callers;
      var helpers := Helpers(markers, callers);
      ok := markers != {} && callers != [] && missing == [] && stillDirect == [] && helpers != [];
      if ok {
        assert IsHelper(program, markers, callers, helpers[0]);
      }
    }
  }

  /** Every caller is a function of the workspace and calls something of this short name. */
  predicate CalledByAll(p: Program, callers: seq<string>, q: string)
    requires forall f :: f in p.funcs ==> f in p.calls
  {
    forall c :: c in callers ==> c in p.funcs && Short(q) in p.calls[c]
  }

  /** `s` is what follows the last dot of `q`, or all of it. */
  predicate LastPart(q: string, s: string) {
    && '.' !in s
    && (q == s || (|q| > |s| && q[|q| - |s| - 1] == '.' && q[|q| - |s|..] == s))
  }

  /** A function, not a caller itself, that every caller calls by the last part of its name and
      that refers to every marker, itself or through what it calls. */
  ghost predicate IsHelper(p: Program, markers: set<string>, callers: seq<string>, q: string)
    requires Valid(p)
  {
    && q in p.funcs && q !in callers
    && (forall c :: c in callers ==> c in p.funcs && exists s :: s in p.calls[c] && LastPart(q, s))
    && forall m :: m in markers ==> Refers(p, q, m)
  }

  lemma {:induction false} ShortIsLastPart(q: string)
    ensures LastPart(q, Short(q)) && forall s :: LastPart(q, s) ==> s == Short(q)
  {
    var (before, c) := (q[..Max(0, |q| - 1)], if q == [] then '.' else q[|q| - 1]);
    if '.' in q && c != '.' {
      ShortIsLastPart(before);
      assert q == before + [c];
      forall s | LastPart(q, s) ensures s == Short(q) {
        PartBefore(q, s);
      }
    }
  }

  lemma PartBefore(q: string, s: string)
    requires LastPart(q, s) && '.' in q && q[|q| - 1] != '.'
    ensures s != [] && LastPart(q[..|q| - 1], s[..|s| - 1]) && s[|s| - 1] == q[|q| - 1]
  {
  }

  lemma CalledIsByAll(p: Program, callers: seq<string>, q: string)
    requires Valid(p)
    ensures CalledByAll(p, callers, q)
       <==> forall c :: c in callers ==> c in p.funcs && exists s :: s in p.calls[c] && LastPart(q, s)
  {
    ShortIsLastPart(q);
  }

  /** The test of one function, on a memo as any earlier questions leave it. */
  lemma HelperTest(p: Program, markers: set<string>, callers: seq<string>, q: string, memo: Memo)
    requires Valid(p) && q in p.funcs && q !in callers && Sound(p, memo) && Full(p, memo)
    ensures var v := Reach(p, q, {}, memo);
            && Sound(p, v.memo) && Full(p, v.memo)
            && (markers <= v.found && CalledByAll(p, callers, q) ==> IsHelper(p, markers, callers, q))
            && (IsHelper(p, markers, callers, q) && Acyclic(p, q) ==> markers <= v.found && CalledByAll(p, callers, q))
  {
    ReachSound(p, q, {}, memo);
    ReachFull(p, q, {}, memo);
    CalledIsByAll(p, callers, q);
  }

  // ---- reachability --------------------------------------------------------

  /** `w` walks from `a` to `b` along calls. */
  ghost predicate Way(p: Program, w: seq<string>, a: string, b: string)
    requires Valid(p)
  {
    && w != [] && w[0] == a && w[|w| - 1] == b
    && (forall i :: 0 <= i < |w| ==> w[i] in p.funcs)
    && (forall i :: 0 <= i < |w| - 1 ==> w[i + 1] in Callees(p, w[i]))
  }

  ghost predicate Reachable(p: Program, a: string, b: string)
    requires Valid(p)
  {
    exists w :: Way(p, w, a, b)
  }

  /** Some function reachable from `q` names marker `m` itself. */
  ghost predicate Refers(p: Program, q: string, m: string)
    requires Valid(p)
  {
    exists f :: f in p.funcs && m in p.direct[f] && Reachable(p, q, f)
  }

  /** No cycle of two or more functions is reachable from `q`. A function calling itself is no
      such cycle. */
  ghost predicate Acyclic(p: Program, q: string)
    requires Valid(p)
  {
    forall a, b :: Reachable(p, q, a) && Reachable(p, a, b) && Reachable(p, b, a) ==> a == b
  }

  lemma ReachableSelf(p: Program, q: string)
    requires Valid(p) && q in p.funcs
    ensures Reachable(p, q, q)
  {
    assert Way(p, [q], q, q);
  }

  lemma ReachableTrans(p: Program, a: string, b: string, c: string)
    requires Valid(p) && Reachable(p, a, b) && Reachable(p, b, c)
    ensures Reachable(p, a, c)
  {
    var v :| Way(p, v, a, b);
    var w :| Way(p, w, b, c);
    var vw := v + w[1..];
    forall i | 0 <= i < |vw| - 1 ensures vw[i + 1] in Callees(p, vw[i]) {
      if i < |v| - 1 {
        assert vw[i] == v[i] && vw[i + 1] == v[i + 1];
      } else {
        assert vw[i] == w[i - (|v| - 1)] && vw[i + 1] == w[i + 1 - (|v| - 1)];
      }
    }
    assert Way(p, vw, a, c);
  }

  lemma ReachableCall(p: Program, a: string, b: string)
    requires Valid(p) && a in p.funcs && b in Callees(p, a)
    ensures Reachable(p, a, b)
  {
    assert Way(p, [a, b], a, b);
  }

  /** A way out of `q` leaves it for a callee other than `q`. */
  lemma {:induction false} FirstCall(p: Program, w: seq<string>, q: string, f: string)
    requires Valid(p) && Way(p, w, q, f) && f != q
    ensures exists c :: c in Callees(p, q) && c != q && Reachable(p, c, f)
    decreases |w|
  {
    assert Way(p, w[1..], w[1], f);
    if w[1] == q {
      FirstCall(p, w[1..], q, f);
    }
  }

  // ---- soundness on every call graph ---------------------------------------

  ghost predicate SoundSet(p: Program, q: string, found: set<string>)
    requires Valid(p)
  {
    forall m :: m in found ==> Refers(p, q, m)
  }

  ghost predicate Sound(p: Program, memo: Memo)
    requires Valid(p)
  {
    forall q :: q in memo ==> q in p.funcs && SoundSet(p, q, memo[q])
  }

  lemma CalleeSound(p: Program, q: string, c: string, found: set<string>)
    requires Valid(p) && q in p.funcs && c in Callees(p, q) && SoundSet(p, c, found)
    ensures SoundSet(p, q, found)
  {
    ReachableCall(p, q, c);
    forall m | m in found ensures Refers(p, q, m) {
      var f :| f in p.funcs && m in p.direct[f] && Reachable(p, c, f);
      ReachableTrans(p, q, c, f);
    }
  }

  lemma {:induction false} ReachSound(p: Program, q: string, seen: set<string>, memo: Memo)
    requires Valid(p) && q in p.funcs && q !in seen && Sound(p, memo)
    ensures var v := Reach(p, q, seen, memo); SoundSet(p, q, v.found) && Sound(p, v.memo) && q in v.memo
    decreases FuncSet(p) - seen, 1, 0
  {
    if q !in memo {
      ReachableSelf(p, q);
      ReachAllSound(p, Callees(p, q), q, seen, p.direct[q], memo);
    }
  }

  lemma {:induction false} ReachAllSound(p: Program, cs: seq<string>, q: string, seen: set<string>,
                                         found: set<string>, memo: Memo)
    requires Valid(p) && q in p.funcs && q !in seen && Sound(p, memo) && SoundSet(p, q, found)
    requires forall c :: c in cs ==> c in p.funcs && c in Callees(p, q)
    ensures var v := ReachAll(p, cs, q, seen, found, memo); SoundSet(p, q, v.found) && Sound(p, v.memo)
    decreases FuncSet(p) - seen, 0, |cs|
  {
    if cs == [] {
    } else if cs[0] in seen || cs[0] == q {
      ReachAllSound(p, cs[1..], q, seen, found, memo);
    } else {
      assert q in FuncSet(p) - seen;
      ReachSound(p, cs[0], seen + {q}, memo);
      var v := Reach(p, cs[0], seen + {q}, memo);
      CalleeSound(p, q, cs[0], v.found);
      ReachAllSound(p, cs[1..], q, seen, found + v.found, v.memo);
    }
  }

  // ---- completeness where no cycle is reachable ----------------------------

  ghost predicate FullSet(p: Program, q: string, found: set<string>)
    requires Valid(p)
  {
    forall m :: Refers(p, q, m) ==> m in found
  }

  /** What is remembered of a function that reaches no cycle is all there is. */
  ghost predicate Full(p: Program, memo: Memo)
    requires Valid(p)
  {
    forall q :: q in memo && Acyclic(p, q) ==> FullSet(p, q, memo[q])
  }

  /** `found` has the function's own markers and those of its callees, but for `cs`. */
  ghost predicate FullBut(p: Program, q: string, found: set<string>, cs: seq<string>)
    requires Valid(p) && q in p.funcs
  {
    && p.direct[q] <= found
    && forall c, m :: c in Callees(p, q) && c != q && c !in cs && Refers(p, c, m) ==> m in found
  }

  ghost predicate AllReach(p: Program, seen: set<string>, q: string)
    requires Valid(p)
  {
    forall s :: s in seen ==> Reachable(p, s, q)
  }

  lemma AcyclicCallee(p: Program, q: string, c: string)
    requires Valid(p) && q in p.funcs && Acyclic(p, q) && c in Callees(p, q)
    ensures Acyclic(p, c)
  {
    ReachableCall(p, q, c);
    forall a | Reachable(p, c, a) ensures Reachable(p, q, a) {
      ReachableTrans(p, q, c, a);
    }
  }

  lemma AllReachCallee(p: Program, seen: set<string>, q: string, c: string)
    requires Valid(p) && q in p.funcs && AllReach(p, seen, q) && c in Callees(p, q)
    ensures AllReach(p, seen + {q}, c)
  {
    ReachableCall(p, q, c);
    forall s | s in seen ensures Reachable(p, s, c) {
      ReachableTrans(p, s, q, c);
    }
  }

  /** Without a cycle no callee is still being visited. */
  lemma CalleeNotSeen(p: Program, seen: set<string>, q: string, c: string)
    requires Valid(p) && q in p.funcs && Acyclic(p, q) && AllReach(p, seen, q)
    requires c in Callees(p, q) && c != q
    ensures c !in seen
  {
    ReachableSelf(p, q);
    ReachableCall(p, q, c);
  }

  /** A marker not named by `q` itself is referred to by one of its other callees. */
  lemma RefersThroughCallee(p: Program, q: string, m: string)
    requires Valid(p) && q in p.funcs && Refers(p, q, m)
    ensures m in p.direct[q] || exists c :: c in Callees(p, q) && c != q && Refers(p, c, m)
  {
    var f :| f in p.funcs && m in p.direct[f] && Reachable(p, q, f);
    if f != q {
      var w :| Way(p, w, q, f);
      FirstCall(p, w, q, f);
      var c :| c in Callees(p, q) && c != q && Reachable(p, c, f);
      assert Refers(p, c, m);
    }
  }

  lemma FullButIsFull(p: Program, q: string, found: set<string>)
    requires Valid(p) && q in p.funcs && FullBut(p, q, found, [])
    ensures FullSet(p, q, found)
  {
    forall m | Refers(p, q, m) ensures m in found {
      RefersThroughCallee(p, q, m);
    }
  }

  lemma {:induction false} ReachFull(p: Program, q: string, seen: set<string>, memo: Memo)
    requires Valid(p) && q in p.funcs && q !in seen && Full(p, memo) && AllReach(p, seen, q)
    ensures var v := Reach(p, q, seen, memo); Full(p, v.memo) && (Acyclic(p, q) ==> FullSet(p, q, v.found))
    decreases FuncSet(p) - seen, 1, 0
  {
    if q !in memo {
      ReachAllFull(p, Callees(p, q), q, seen, p.direct[q], memo);
      var v := ReachAll(p, Callees(p, q), q, seen, p.direct[q], memo);
      if Acyclic(p, q) {
        FullButIsFull(p, q, v.found);
      }
    }
  }

  lemma {:induction false} ReachAllFull(p: Program, cs: seq<string>, q: string, seen: set<string>,
                                        found: set<string>, memo: Memo)
    requires Valid(p) && q in p.funcs && q !in seen && Full(p, memo) && AllReach(p, seen, q)
    requires forall c :: c in cs ==> c in p.funcs && c in Callees(p, q)
    requires Acyclic(p, q) ==> FullBut(p, q, found, cs)
    ensures var v := ReachAll(p, cs, q, seen, found, memo);
            Full(p, v.memo) && (Acyclic(p, q) ==> FullBut(p, q, v.found, []))
    decreases FuncSet(p) - seen, 0, |cs|
  {
    if cs == [] {
    } else {
      var c := cs[0];
      if Acyclic(p, q) && c != q {
        CalleeNotSeen(p, seen, q, c);
        AcyclicCallee(p, q, c);
      }
      if c in seen || c == q {
        ReachAllFull(p, cs[1..], q, seen, found, memo);
      } else {
        assert q in FuncSet(p) - seen;
        AllReachCallee(p, seen, q, c);
        ReachFull(p, c, seen + {q}, memo);
        var v := Reach(p, c, seen + {q}, memo);
        ReachAllFull(p, cs[1..], q, seen, found + v.found, v.memo);
      }
    }
  }

  // ---- any order of queries ------------------------------------------------

  /** The memo after asking about each function in turn. */
  function Asked(p: Program, queries: seq<string>): Memo
    requires Valid(p) && forall q :: q in queries ==> q in p.funcs
  {
    if queries == [] then map[]
    else Reach(p, queries[|queries| - 1], {}, Asked(p, queries[..|queries| - 1])).memo
  }

  lemma {:induction false} AskedKeeps(p: Program, queries: seq<string>)
    requires Valid(p) && forall q :: q in queries ==> q in p.funcs
    ensures Sound(p, Asked(p, queries)) && Full(p, Asked(p, queries))
  {
    if queries != [] {
      AskedKeeps(p, queries[..|queries| - 1]);
      ReachSound(p, queries[|queries| - 1], {}, Asked(p, queries[..|queries| - 1]));
      ReachFull(p, queries[|queries| - 1], {}, Asked(p, queries[..|queries| - 1]));
    }
  }

  /** Whatever was asked before, an answer names only markers of reachable functions, on every
      call graph; and where no cycle is reachable from the function asked about, all of them. */
  lemma AnyQueries(p: Program, queries: seq<string>, q: string, m: string)
    requires Valid(p) && q in p.funcs && forall f :: f in queries ==> f in p.funcs
    ensures var found := Reach(p, q, {}, Asked(p, queries)).found;
            && (m in found ==> Refers(p, q, m))
            && (Acyclic(p, q) ==> (m in found <==> Refers(p, q, m)))
  {
    AskedKeeps(p, queries);
    ReachSound(p, q, {}, Asked(p, queries));
    ReachFull(p, q, {}, Asked(p, queries));
  }

  // ---- where a cycle makes the memo wrong ----------------------------------

  /** Every answer, whatever markers the functions name and whatever was asked before. */
  ghost predicate AlwaysExact(p: Program)
    requires Valid(p)
  {
    forall direct: map<string, set<string>>, queries: seq<string>, q: string ::
      Exact(p, direct, queries, q)
  }

  ghost predicate Exact(p: Program, direct: map<string, set<string>>, queries: seq<string>, q: string)
    requires Valid(p)
  {
    var named := p.(direct := direct);
    Valid(named) && q in p.funcs && (forall f :: f in queries ==> f in p.funcs) ==>
      forall m :: m in Reach(named, q, {}, Asked(named, queries)).found <==> Refers(named, q, m)
  }

  /** No two functions call each other, directly or through others. */
  ghost predicate NoCycle(p: Program)
    requires Valid(p)
  {
    forall a, b :: Reachable(p, a, b) && Reachable(p, b, a) ==> a == b
  }

  /** Only `a` names a marker. */
  ghost predicate OnlyMarked(p: Program, a: string)
    requires Valid(p)
  {
    forall q :: q in p.funcs && q != a ==> p.direct[q] == {}
  }

  /** `a` is still being visited and nothing remembered has found anything. */
  ghost predicate Untainted(memo: Memo, a: string) {
    a !in memo && forall q :: q in memo ==> memo[q] == {}
  }

  lemma {:induction false} ReachMisses(p: Program, a: string, q: string, seen: set<string>, memo: Memo)
    requires Valid(p) && OnlyMarked(p, a) && q in p.funcs && q !in seen && a in seen && Untainted(memo, a)
    ensures var v := Reach(p, q, seen, memo);
            v.found == {} && Untainted(v.memo, a) && q in v.memo && memo.Keys <= v.memo.Keys
    decreases FuncSet(p) - seen, 1, 0
  {
    if q !in memo {
      ReachAllMisses(p, a, Callees(p, q), q, seen, {}, memo);
    }
  }

  /** Below `a`, or in `a` itself, the callees add nothing and each is remembered so. */
  lemma {:induction false} ReachAllMisses(p: Program, a: string, cs: seq<string>, q: string, seen: set<string>,
                                          found: set<string>, memo: Memo)
    requires Valid(p) && OnlyMarked(p, a) && q in p.funcs && q !in seen && a in seen + {q} && Untainted(memo, a)
    requires forall c :: c in cs ==> c in p.funcs
    ensures var v := ReachAll(p, cs, q, seen, found, memo);
            && v.found == found && Untainted(v.memo, a) && memo.Keys <= v.memo.Keys
            && forall c :: c in cs && c != q && c !in seen ==> c in v.memo
    decreases FuncSet(p) - seen, 0, |cs|
  {
    if cs == [] {
    } else if cs[0] in seen || cs[0] == q {
      ReachAllMisses(p, a, cs[1..], q, seen, found, memo);
    } else {
      assert q in FuncSet(p) - seen;
      ReachMisses(p, a, cs[0], seen + {q}, memo);
      var v := Reach(p, cs[0], seen + {q}, memo);
      assert found + v.found == found;
      ReachAllMisses(p, a, cs[1..], q, seen, found, v.memo);
    }
  }

  /** Markers do not change who calls whom. */
  lemma SameCalls(p: Program, p': Program, a: string, b: string)
    requires Valid(p) && Valid(p') && p'.funcs == p.funcs && p'.calls == p.calls
    ensures Reachable(p, a, b) ==> Reachable(p', a, b)
  {
    if Reachable(p, a, b) {
      var w :| Way(p, w, a, b);
      assert Way(p', w, a, b);
    }
  }

  /** The same calls, with a single marker, named by `a` alone. */
  function MarkOnly(p: Program, a: string, m: string): (r: map<string, set<string>>)
    ensures forall q :: q in r <==> q in p.funcs
    ensures forall q :: q in r ==> r[q] == if q == a then {m} else {}
  {
    map q | q in p.funcs :: if q == a then {m} else {}
  }

  /** A function that calls one calling it back: with a marker only in itself, asking about it
      first makes the next answer miss the marker. */
  lemma CycleMisses(p: Program, a: string, c: string, m: string)
    requires Valid(p) && a in p.funcs && c in Callees(p, a) && c != a && Reachable(p, c, a)
    ensures var named := p.(direct := MarkOnly(p, a, m));
            Valid(named) && m !in Reach(named, c, {}, Asked(named, [a])).found && Refers(named, c, m)
  {
    var named := p.(direct := MarkOnly(p, a, m));
    SameCalls(p, named, c, a);
    assert [a][..0] == [];
    ReachAllMisses(named, a, Callees(named, a), a, {}, {m}, map[]);
  }

  /** A cycle has a function that calls, on the way round, another one. */
  lemma CycleHasCall(p: Program, a: string, b: string) returns (c: string)
    requires Valid(p) && Reachable(p, a, b) && Reachable(p, b, a) && a != b
    ensures a in p.funcs && c in Callees(p, a) && c != a && Reachable(p, c, a)
  {
    var w :| Way(p, w, a, b);
    FirstCall(p, w, a, b);
    c :| c in Callees(p, a) && c != a && Reachable(p, c, b);
    ReachableTrans(p, c, b, a);
  }

  lemma CycleNotExact(p: Program, a: string, c: string)
    requires Valid(p) && a in p.funcs && c in Callees(p, a) && c != a && Reachable(p, c, a)
    ensures !AlwaysExact(p)
  {
    CycleMisses(p, a, c, "m");
    assert !Exact(p, MarkOnly(p, a, "m"), [a], c);
  }

  /** The answers are exact on a call graph, for all markers and all orders of asking, if and
      only if it has no cycle of two or more functions. */
  lemma ExactIffNoCycle(p: Program)
    requires Valid(p)
    ensures AlwaysExact(p) <==> NoCycle(p)
  {
    if NoCycle(p) {
      forall direct: map<string, set<string>>, queries: seq<string>, q: string
        ensures Exact(p, direct, queries, q)
      {
        NoCycleExact(p, direct, queries, q);
      }
    } else {
      var a, b :| Reachable(p, a, b) && Reachable(p, b, a) && a != b;
      var c := CycleHasCall(p, a, b);
      CycleNotExact(p, a, c);
    }
  }

  lemma NoCycleExact(p: Program, direct: map<string, set<string>>, queries: seq<string>, q: string)
    requires Valid(p) && NoCycle(p)
    ensures Exact(p, direct, queries, q)
  {
    var named := p.(direct := direct);
    if Valid(named) && q in p.funcs && forall f :: f in queries ==> f in p.funcs {
      forall a, b | Reachable(named, a, b) && Reachable(named, b, a) ensures a == b {
        SameCalls(named, p, a, b);
        SameCalls(named, p, b, a);
      }
      forall m ensures m in Reach(named, q, {}, Asked(named, queries)).found <==> Refers(named, q, m) {
        AnyQueries(named, queries, q, m);
      }
    }
  }
}
