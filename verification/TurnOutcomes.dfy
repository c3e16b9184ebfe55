/** cmd/craze-fake-agent/queue.go: what a turn's reply says of its steps, and what becomes of the
    interjections, in every interleaving of the goroutines. */
module TurnOutcomes {
  import opened Common
  import opened TurnSections
  import opened TurnRuns

  // ---- a reply tells how far the turn got ----------------------------------

  /** How far the turn is that a runner is on. */
  ghost predicate StepsSoFar(w: World, pc: Pc) {
    match pc
    case RunPicked(r) => (r, 0) !in w.stepped && (r, 1) !in w.stepped
    case RunStep(r, i) => (r, 1) !in w.stepped && ((r, 0) in w.stepped <==> i == 1)
    case RunMerge(r, i) => (r, 0) in w.stepped && ((r, 1) in w.stepped <==> i == 1)
    case RunSay(r) => (r, 1) in w.stepped
    case RunStrand(r) => (r, 1) in w.stepped
    case RunEnd(r, stop) => Tells(w, r, stop)
    case RunReply(r, stop) => Tells(w, r, stop)
    case _ => true
  }

  /** Ended: both steps were completed. Cancelled: the prompt was, and the second was not. */
  predicate Tells(w: World, r: Prompt, stop: Stop) {
    match stop
    case EndedTurn => (r, 1) in w.stepped
    case Cancelled => r in w.s.cancelled && (r, 1) !in w.stepped
  }

  ghost predicate StepsInv(w: World) {
    && (forall i :: 0 <= i < |w.threads| ==> StepsSoFar(w, w.threads[i]))
    && (forall i :: 0 <= i < |w.replies| ==> Tells(w, w.replies[i].r, w.replies[i].stop))
    && (forall r, i :: (r, i) in w.stepped ==> r <= Picked(w.s) && i <= 1)
    && (forall r :: (r, 1) in w.stepped ==> (r, 0) in w.stepped)
  }

  /** What a move adds to the steps and to the cancelled. */
  lemma MoveSteps(script: Script, w: World, tid: nat, alt: bool)
    requires Inv(script, w) && StepsInv(w) && tid < |w.threads| && Enabled(script, w.s, w.threads[tid], alt)
    ensures var w' := Moved(script, w, tid, alt);
            && w.stepped <= w'.stepped && w.s.cancelled <= w'.s.cancelled && Picked(w.s) <= Picked(w'.s)
            && (w'.stepped == w.stepped
                || exists r, i :: w'.stepped == w.stepped + {(r, i)} && About(w.threads[tid]) == Some(r) && i <= 1
                                  && r == Picked(w.s) && |w.replies| < r && (i == 1 ==> (r, 0) in w.stepped))
  {
    assert RunnerInv(w, w.threads[tid]) && StepsSoFar(w, w.threads[tid]);
    var w' := Moved(script, w, tid, alt);
    if w.threads[tid].RunStep? && !alt {
      var pc := w.threads[tid];
      assert w'.stepped == w.stepped + {(pc.r, pc.step)};
    }
  }

  lemma MoverSteps(script: Script, w: World, tid: nat, alt: bool)
    requires Inv(script, w) && StepsInv(w) && tid < |w.threads| && Enabled(script, w.s, w.threads[tid], alt)
    ensures var w' := Moved(script, w, tid, alt);
            var m := Advance(script, w.s, w.threads[tid], alt);
            StepsSoFar(w', m.pc) && (m.spawned != [] ==> StepsSoFar(w', m.spawned[0]))
  {
    assert RunnerInv(w, w.threads[tid]) && StepsSoFar(w, w.threads[tid]);
  }

  lemma MoveKeepsSteps(script: Script, w: World, tid: nat, alt: bool)
    requires Inv(script, w) && StepsInv(w) && tid < |w.threads| && Enabled(script, w.s, w.threads[tid], alt)
    ensures StepsInv(Moved(script, w, tid, alt))
  {
    var w' := Moved(script, w, tid, alt);
    var m := Advance(script, w.s, w.threads[tid], alt);
    MoveSteps(script, w, tid, alt);
    MoverSteps(script, w, tid, alt);
    OneSpawned(script, w.s, w.threads[tid], alt);
    forall i | 0 <= i < |w'.threads| ensures StepsSoFar(w', w'.threads[i]) {
      if i < |w.threads| && i != tid {
        OthersSteps(script, w, tid, alt, i);
      }
    }
    forall i | 0 <= i < |w'.replies| ensures Tells(w', w'.replies[i].r, w'.replies[i].stop) {
      RepliesTell(script, w, tid, alt, i);
    }
  }

  lemma OneSpawned(script: Script, s: Session, pc: Pc, alt: bool)
    ensures |Advance(script, s, pc, alt).spawned| <= 1
  {
  }

  /** No other goroutine is on the turn that makes a step. */
  lemma OthersSteps(script: Script, w: World, tid: nat, alt: bool, i: nat)
    requires Inv(script, w) && StepsInv(w) && tid < |w.threads| && Enabled(script, w.s, w.threads[tid], alt)
    requires i < |w.threads| && i != tid
    ensures StepsSoFar(Moved(script, w, tid, alt), w.threads[i])
  {
    MoveSteps(script, w, tid, alt);
    assert StepsSoFar(w, w.threads[i]);
    if IsRunner(w.threads[i]) && IsRunner(w.threads[tid]) {
      OneRunner(w, i, tid);
    }
  }

  lemma RepliesTell(script: Script, w: World, tid: nat, alt: bool, i: nat)
    requires Inv(script, w) && StepsInv(w) && tid < |w.threads| && Enabled(script, w.s, w.threads[tid], alt)
    requires i < |Moved(script, w, tid, alt).replies|
    ensures var w' := Moved(script, w, tid, alt); Tells(w', w'.replies[i].r, w'.replies[i].stop)
  {
    MoveSteps(script, w, tid, alt);
    assert StepsSoFar(w, w.threads[tid]);
    if i < |w.replies| {
      assert w.replies[i].r == i + 1;
    }
  }

  lemma ReceiveKeepsSteps(script: Script, w: World, a: Action)
    requires Inv(script, w) && StepsInv(w) && !a.Step? && w.threads[0] == ReadIdle
    ensures StepsInv(Received(script, w, a))
  {
    var w' := Received(script, w, a);
    forall i | 0 <= i < |w'.threads| ensures StepsSoFar(w', w'.threads[i]) {
      if 0 < i < |w.threads| {
        assert StepsSoFar(w, w.threads[i]);
      }
    }
  }

  lemma {:induction false} RunKeepsSteps(script: Script, run: seq<World>, actions: seq<Action>, n: nat)
    requires IsRun(script, run, actions) && n < |run|
    ensures StepsInv(run[n])
  {
    if n > 0 {
      var (w, a) := (run[n - 1], actions[n - 1]);
      RunKeepsSteps(script, run, actions, n - 1);
      RunKeepsInv(script, run, actions, n - 1);
      assert Next(script, w, a, run[n]);
      if a.Step? {
        MoveKeepsSteps(script, w, a.tid, a.alt);
      } else {
        ReceiveKeepsSteps(script, w, a);
      }
    }
  }

  /** In every run, a prompt answered with the turn's end ran both steps to their end; one
      answered cancelled was cancelled, and did not. */
  lemma ReplyTellsHowFar(script: Script, run: seq<World>, actions: seq<Action>, n: nat, i: nat)
    requires IsRun(script, run, actions) && n < |run| && i < |run[n].replies|
    ensures var (w, reply) := (run[n], run[n].replies[i]);
            && (reply.stop == EndedTurn <==> (reply.r, 0) in w.stepped && (reply.r, 1) in w.stepped)
            && (reply.stop == Cancelled ==> reply.r in w.s.cancelled)
  {
    RunKeepsSteps(script, run, actions, n);
    assert Tells(run[n], run[n].replies[i].r, run[n].replies[i].stop);
  }

  // ---- where interjections go ----------------------------------------------

  /** How often a text is on its way to a fallback turn with this goroutine. */
  function Carried(pc: Pc, x: string): nat {
    match pc
    case StrandStart(texts) => multiset(texts)[x]
    case _ => 0
  }

  function OnTheWay(pcs: seq<Pc>, x: string): nat {
    if pcs == [] then 0 else OnTheWay(pcs[..|pcs| - 1], x) + Carried(pcs[|pcs| - 1], x)
  }

  lemma {:induction false} OnTheWayConcat(a: seq<Pc>, b: seq<Pc>, x: string)
    ensures OnTheWay(a + b, x) == OnTheWay(a, x) + OnTheWay(b, x)
    decreases |b|
  {
    if b == [] {
      assert a + b == a;
    } else {
      assert (a + b)[..|a + b| - 1] == a + b[..|b| - 1];
      OnTheWayConcat(a, b[..|b| - 1], x);
    }
  }

  lemma {:induction false} OnTheWayUpdate(pcs: seq<Pc>, i: nat, pc: Pc, x: string)
    requires i < |pcs|
    ensures OnTheWay(pcs[i := pc], x) == OnTheWay(pcs, x) - Carried(pcs[i], x) + Carried(pc, x)
  {
    if i == |pcs| - 1 {
      assert pcs[i := pc][..i] == pcs[..i];
    } else {
      assert pcs[i := pc][..|pcs| - 1] == pcs[..|pcs| - 1][i := pc];
      OnTheWayUpdate(pcs[..|pcs| - 1], i, pc, x);
    }
  }

  lemma {:induction false} NothingCarried(pcs: seq<Pc>, x: string)
    requires forall i :: 0 <= i < |pcs| ==> Carried(pcs[i], x) == 0
    ensures OnTheWay(pcs, x) == 0
  {
    if pcs != [] {
      NothingCarried(pcs[..|pcs| - 1], x);
    }
  }

  /** Every interjection acknowledged is in one place: waiting, in the running turn, on its way to
      a fallback turn, said by a turn, or become a fallback turn; or it was dropped or lost. */
  predicate Balances(s: Session, onTheWay: int, t: Texts, x: string) {
    t.acked[x]
    == multiset(s.pending)[x] + multiset(s.merged)[x] + onTheWay
       + t.said[x] + t.started[x] + t.dropped[x] + t.lost[x]
  }

  predicate HandlesTexts(pc: Pc) {
    pc.Interject? || pc.RunMerge? || pc.RunSay? || pc.RunEnd? || pc.Strand? || pc.StrandStart?
  }

  lemma QuietSection(script: Script, s: Session, pc: Pc, alt: bool, t: Texts)
    requires !HandlesTexts(pc)
    ensures var m := Advance(script, s, pc, alt);
            && m.s.pending == s.pending && m.s.merged == s.merged && Told(s, pc, t) == t
            && !m.pc.StrandStart? && forall i :: 0 <= i < |m.spawned| ==> !m.spawned[i].StrandStart?
  {
  }

  lemma MergeBalances(script: Script, s: Session, x: string)
    ensures var m := Merge(script, s);
            multiset(m.pending)[x] + multiset(m.merged)[x] == multiset(s.pending)[x] + multiset(s.merged)[x]
  {
    assert multiset(s.merged + s.pending) == multiset(s.merged) + multiset(s.pending);
  }

  lemma ArrivingBalances(script: Script, s: Session, pc: Pc, alt: bool, others: int, t: Texts, x: string)
    requires (pc.Interject? || pc.RunMerge?) && Balances(s, others + Carried(pc, x), t, x)
    ensures var m := Advance(script, s, pc, alt);
            Balances(m.s, others + Carried(m.pc, x), Told(s, pc, t), x) && m.spawned == []
  {
    match pc
    case RunMerge(_, _) => MergeBalances(script, s, x);
    case Interject(text) => assert multiset(s.pending + [text])[x] == multiset(s.pending)[x] + multiset{text}[x];
  }

  lemma LeavingBalances(script: Script, s: Session, pc: Pc, alt: bool, others: int, t: Texts, x: string)
    requires (pc.RunSay? || pc.RunEnd?) && Balances(s, others + Carried(pc, x), t, x)
    ensures var m := Advance(script, s, pc, alt);
            Balances(m.s, others + Carried(m.pc, x), Told(s, pc, t), x) && m.spawned == []
  {
    assert (t.said + multiset(s.merged))[x] == t.said[x] + multiset(s.merged)[x];
    assert (t.dropped + multiset(s.merged))[x] == t.dropped[x] + multiset(s.merged)[x];
  }

  lemma StrandedBalances(script: Script, s: Session, pc: Pc, alt: bool, others: int, t: Texts, x: string)
    requires (pc.Strand? || pc.StrandStart?) && Balances(s, others + Carried(pc, x), t, x)
    ensures var m := Advance(script, s, pc, alt);
            Balances(m.s, others + Carried(m.pc, x), Told(s, pc, t), x)
            && (m.spawned == [] || m.spawned == [FallbackTurn])
  {
  }

  /** One section keeps the balance, the goroutine's own texts counted with it. */
  lemma SectionBalances(script: Script, s: Session, pc: Pc, alt: bool, others: int, t: Texts, x: string)
    requires Balances(s, others + Carried(pc, x), t, x)
    ensures var m := Advance(script, s, pc, alt);
            Balances(m.s, others + Carried(m.pc, x), Told(s, pc, t), x)
            && forall i :: 0 <= i < |m.spawned| ==> Carried(m.spawned[i], x) == 0
  {
    if pc.Interject? || pc.RunMerge? {
      ArrivingBalances(script, s, pc, alt, others, t, x);
    } else if pc.RunSay? || pc.RunEnd? {
      LeavingBalances(script, s, pc, alt, others, t, x);
    } else if HandlesTexts(pc) {
      StrandedBalances(script, s, pc, alt, others, t, x);
    } else {
      QuietSection(script, s, pc, alt, t);
    }
  }

  lemma MoveBalances(script: Script, w: World, tid: nat, alt: bool, x: string)
    requires tid < |w.threads| && Balances(w.s, OnTheWay(w.threads, x), w.texts, x)
    ensures var w' := Moved(script, w, tid, alt); Balances(w'.s, OnTheWay(w'.threads, x), w'.texts, x)
  {
    var (pc, m) := (w.threads[tid], Advance(script, w.s, w.threads[tid], alt));
    SectionBalances(script, w.s, pc, alt, OnTheWay(w.threads, x) - Carried(pc, x), w.texts, x);
    OnTheWayUpdate(w.threads, tid, m.pc, x);
    OnTheWayConcat(w.threads[tid := m.pc], m.spawned, x);
    NothingCarried(m.spawned, x);
  }

  lemma ReceiveBalances(script: Script, w: World, a: Action, x: string)
    requires !a.Step? && w.threads != [] && w.threads[0] == ReadIdle
    requires Balances(w.s, OnTheWay(w.threads, x), w.texts, x)
    ensures var w' := Received(script, w, a); Balances(w'.s, OnTheWay(w'.threads, x), w'.texts, x)
  {
    if a.SendInterject? {
      var more := if script == LongTurn then [] else [Interject(a.text)];
      NothingCarried(more, x);
      OnTheWayConcat(w.threads, more, x);
    } else {
      OnTheWayUpdate(w.threads, 0, Received(script, w, a).threads[0], x);
    }
  }

  /** In every run every interjection acknowledged is accounted for, as often as it came. */
  lemma {:induction false} InterjectionsAccounted(script: Script, run: seq<World>, actions: seq<Action>, n: nat,
                                                  x: string)
    requires IsRun(script, run, actions) && n < |run|
    ensures Balances(run[n].s, OnTheWay(run[n].threads, x), run[n].texts, x)
  {
    if n == 0 {
      NothingCarried([ReadIdle], x);
    } else {
      var (w, a) := (run[n - 1], actions[n - 1]);
      InterjectionsAccounted(script, run, actions, n - 1, x);
      assert Next(script, w, a, run[n]);
      if a.Step? {
        MoveBalances(script, w, a.tid, a.alt, x);
      } else {
        ReceiveBalances(script, w, a, x);
      }
    }
  }

  // ---- no turn hands its interjections on ----------------------------------

  /** Where a runner has nothing merged: before its turn's first merge, and once the turn said it. */
  predicate NothingMerged(pc: Pc) {
    || pc.RunTop? || pc.RunPicked? || (pc.RunStep? && pc.step == 0) || (pc.RunMerge? && pc.step == 0)
    || pc.RunStrand? || (pc.RunEnd? && pc.stop == EndedTurn) || pc.RunReply?
  }

  ghost predicate MergedInv(w: World) {
    && (!w.s.draining ==> w.s.merged == [])
    && forall i :: 0 <= i < |w.threads| && NothingMerged(w.threads[i]) ==> w.s.merged == []
  }

  lemma MoveKeepsMerged(script: Script, w: World, tid: nat, alt: bool)
    requires Inv(script, w) && MergedInv(w) && tid < |w.threads| && Enabled(script, w.s, w.threads[tid], alt)
    ensures MergedInv(Moved(script, w, tid, alt))
  {
    var w' := Moved(script, w, tid, alt);
    if IsRunner(w.threads[tid]) {
      OneRunner(w, tid, tid);
      assert RunnerInv(w, w.threads[tid]);
      RunnerMerges(script, w.s, w.threads[tid], alt);
      assert NothingMerged(w.threads[tid]) ==> w.s.merged == [];
    } else {
      OthersMergeNothing(script, w.s, w.threads[tid], alt);
    }
    forall i | 0 <= i < |w'.threads| && NothingMerged(w'.threads[i]) ensures w'.s.merged == [] {
      if i < |w.threads| && i != tid {
        assert NothingMerged(w.threads[i]) ==> w.s.merged == [];
        if IsRunner(w.threads[tid]) {
          OneRunner(w, i, tid);
        }
      }
    }
  }

  lemma RunnerMerges(script: Script, s: Session, pc: Pc, alt: bool)
    requires IsRunner(pc) && Enabled(script, s, pc, alt) && s.draining && (NothingMerged(pc) ==> s.merged == [])
    requires pc.RunEnd? ==> pc.r !in s.once
    ensures var m := Advance(script, s, pc, alt);
            && (NothingMerged(m.pc) || !m.s.draining ==> m.s.merged == [])
            && forall i :: 0 <= i < |m.spawned| ==> !NothingMerged(m.spawned[i])
  {
  }

  lemma OthersMergeNothing(script: Script, s: Session, pc: Pc, alt: bool)
    requires !IsRunner(pc) && Enabled(script, s, pc, alt)
    ensures var m := Advance(script, s, pc, alt);
            && m.s.merged == s.merged && (s.draining ==> m.s.draining) && !NothingMerged(m.pc)
            && ((exists i :: 0 <= i < |m.spawned| && NothingMerged(m.spawned[i])) ==> !s.draining)
  {
  }

  lemma {:induction false} RunKeepsMerged(script: Script, run: seq<World>, actions: seq<Action>, n: nat)
    requires IsRun(script, run, actions) && n < |run|
    ensures MergedInv(run[n])
  {
    if n > 0 {
      var (w, a) := (run[n - 1], actions[n - 1]);
      RunKeepsMerged(script, run, actions, n - 1);
      RunKeepsInv(script, run, actions, n - 1);
      assert Next(script, w, a, run[n]);
      if a.Step? {
        MoveKeepsMerged(script, w, a.tid, a.alt);
      } else {
        ReceiveKeepsMerged(script, w, a);
      }
    }
  }

  lemma ReceiveKeepsMerged(script: Script, w: World, a: Action)
    requires MergedInv(w) && !a.Step? && w.threads != [] && w.threads[0] == ReadIdle
    ensures MergedInv(Received(script, w, a))
  {
    var w' := Received(script, w, a);
    forall i | 0 <= i < |w'.threads| && NothingMerged(w'.threads[i]) ensures w'.s.merged == [] {
      assert w'.threads[i] == w.threads[i];
    }
  }

  /** A turn starts with nothing merged; interjections are dropped only with a turn that was
      cancelled, and lost exactly when the goroutine that took them finds a fallback turn on. */
  lemma DroppedAndLost(script: Script, run: seq<World>, actions: seq<Action>, n: nat)
    requires IsRun(script, run, actions) && n < |actions|
    ensures forall i :: 0 <= i < |run[n].threads| && run[n].threads[i].RunPicked? ==> run[n].s.merged == []
    ensures run[n + 1].texts.dropped != run[n].texts.dropped ==>
              && actions[n].Step? && run[n].threads[actions[n].tid].RunEnd?
              && run[n].threads[actions[n].tid].stop == Cancelled
    ensures run[n + 1].texts.lost != run[n].texts.lost <==>
              && actions[n].Step? && run[n].s.fallbackOn
              && run[n].threads[actions[n].tid].StrandStart? && run[n].threads[actions[n].tid].texts != []
  {
    var (w, a) := (run[n], actions[n]);
    RunKeepsMerged(script, run, actions, n);
    assert Next(script, w, a, run[n + 1]);
    if a.Step? {
      ToldChanges(w.s, w.threads[a.tid], w.texts);
      assert NothingMerged(w.threads[a.tid]) ==> w.s.merged == [];
    }
  }

  lemma ToldChanges(s: Session, pc: Pc, t: Texts)
    ensures Told(s, pc, t).dropped != t.dropped ==> pc.RunEnd? && s.merged != []
    ensures Told(s, pc, t).lost != t.lost <==> pc.StrandStart? && s.fallbackOn && pc.texts != []
  {
    if pc.StrandStart? && pc.texts != [] {
      assert multiset(pc.texts)[pc.texts[0]] > 0;
      assert (t.lost + multiset(pc.texts))[pc.texts[0]] > t.lost[pc.texts[0]];
    } else if pc.StrandStart? {
      assert t.lost + multiset{} == t.lost;
    } else if s.merged == [] {
      assert t.dropped + multiset{} == t.dropped;
    }
  }

  /** A session with nothing running, two interjections just acknowledged. */
  lemma TwoArrive() returns (w: World, run: seq<World>, actions: seq<Action>)
    ensures IsRun(GrokLongTurn, run, actions) && |actions| == 2 && run[2] == w
    ensures w == Start.(threads := [ReadIdle, Interject("a"), Interject("b")])
  {
    var w1 := Start.(threads := [ReadIdle, Interject("a")]);
    w := Start.(threads := [ReadIdle, Interject("a"), Interject("b")]);
    run, actions := [Start, w1, w], [SendInterject("a"), SendInterject("b")];
    assert Start.threads + [Interject("a")] == w1.threads;
    assert w1.threads + [Interject("b")] == w.threads;
  }

  /** Both goroutines take what is stranded before either starts the fallback turn for it. */
  lemma BothTake(w: World) returns (w': World, run: seq<World>, actions: seq<Action>)
    requires w == Start.(threads := [ReadIdle, Interject("a"), Interject("b")])
    ensures |run| == 5 && |actions| == 4 && run[0] == w && run[4] == w'
    ensures forall i :: 0 <= i < 4 ==> Next(GrokLongTurn, run[i], actions[i], run[i + 1])
    ensures w'.threads == [ReadIdle, StrandStart(["a"]), StrandStart(["b"])] && w'.s == NewSession
    ensures w'.texts.lost == multiset{}
  {
    var w1 := Moved(GrokLongTurn, w, 1, false);
    assert w1.threads == [ReadIdle, Strand, Interject("b")] && w1.s == NewSession.(pending := ["a"]);
    var w2 := Moved(GrokLongTurn, w1, 1, false);
    assert w2.threads == [ReadIdle, StrandStart(["a"]), Interject("b")] && w2.s == NewSession;
    var w3 := Moved(GrokLongTurn, w2, 2, false);
    assert w3.threads == [ReadIdle, StrandStart(["a"]), Strand] && w3.s == NewSession.(pending := ["b"]);
    w' := Moved(GrokLongTurn, w3, 2, false);
    assert w'.threads == [ReadIdle, StrandStart(["a"]), StrandStart(["b"])] && w'.s == NewSession;
    run, actions := [w, w1, w2, w3, w'], [Step(1, false), Step(1, false), Step(2, false), Step(2, false)];
  }

  /** So an interjection can be lost: the first goroutine starts its fallback turn, and the second
      finds it on. */
  lemma InterjectionLost() returns (run: seq<World>, actions: seq<Action>)
    ensures IsRun(GrokLongTurn, run, actions) && run[|actions|].texts.lost == multiset{"b"}
  {
    var w2, run2, actions2 := TwoArrive();
    var w6, run6, actions6 := BothTake(w2);
    var w7 := Moved(GrokLongTurn, w6, 1, false);
    assert w7.threads == [ReadIdle, Gone, StrandStart(["b"]), FallbackTurn] && w7.s.fallbackOn;
    var w8 := Moved(GrokLongTurn, w7, 2, false);
    assert multiset(["b"]) == multiset{"b"};
    run, actions := run2 + run6[1..] + [w7, w8], actions2 + actions6 + [Step(1, false), Step(2, false)];
    forall i | 0 <= i < |actions| ensures Next(GrokLongTurn, run[i], actions[i], run[i + 1]) {
      if 2 <= i < 6 {
        assert Next(GrokLongTurn, run6[i - 2], actions6[i - 2], run6[i - 1]);
      }
    }
  }

  // ---- at rest -------------------------------------------------------------

  /** Goroutines that will look for a stranded interjection, or start a runner that will. */
  predicate Looks(pc: Pc) { pc.Strand? || Waking(pc) }

  ghost predicate PendingInv(script: Script, w: World) {
    && (script == LongTurn ==> w.s.pending == [] && forall i :: 0 <= i < |w.threads| ==> !w.threads[i].Interject?)
    && (w.s.pending != [] ==>
          w.s.draining || w.s.fallbackOn || exists i :: 0 <= i < |w.threads| && Looks(w.threads[i]))
  }

  /** What one section does for what is pending. */
  lemma SectionLooks(script: Script, s: Session, pc: Pc, alt: bool)
    requires Enabled(script, s, pc, alt) && (s.running.Some? ==> s.draining)
    requires script == LongTurn ==> s.pending == [] && !pc.Interject?
    ensures var m := Advance(script, s, pc, alt);
            && (script == LongTurn ==> m.s.pending == [] && !m.pc.Interject?)
            && (forall i :: 0 <= i < |m.spawned| ==> !m.spawned[i].Interject?)
            && (m.s.pending != [] ==>
                  || m.s.draining || m.s.fallbackOn || Looks(m.pc)
                  || (s.pending != [] && !s.draining && !s.fallbackOn && !Looks(pc)))
  {
  }

  lemma MoveKeepsPending(script: Script, w: World, tid: nat, alt: bool)
    requires Inv(script, w) && PendingInv(script, w)
    requires tid < |w.threads| && Enabled(script, w.s, w.threads[tid], alt)
    ensures PendingInv(script, Moved(script, w, tid, alt))
  {
    var w' := Moved(script, w, tid, alt);
    SectionLooks(script, w.s, w.threads[tid], alt);
    assert w'.threads[tid] == Advance(script, w.s, w.threads[tid], alt).pc;
    if w'.s.pending != [] && !w'.s.draining && !w'.s.fallbackOn && !Looks(w'.threads[tid]) {
      var i :| 0 <= i < |w.threads| && Looks(w.threads[i]);
      assert w'.threads[i] == w.threads[i];
    }
  }

  lemma ReceiveKeepsPending(script: Script, w: World, a: Action)
    requires PendingInv(script, w) && !a.Step? && w.threads != [] && w.threads[0] == ReadIdle
    ensures PendingInv(script, Received(script, w, a))
  {
    var w' := Received(script, w, a);
    if w.s.pending != [] && !w.s.draining && !w.s.fallbackOn {
      var i :| 0 <= i < |w.threads| && Looks(w.threads[i]);
      assert w'.threads[i] == w.threads[i];
    }
  }

  lemma {:induction false} RunKeepsPending(script: Script, run: seq<World>, actions: seq<Action>, n: nat)
    requires IsRun(script, run, actions) && n < |run|
    ensures PendingInv(script, run[n])
  {
    if n > 0 {
      var (w, a) := (run[n - 1], actions[n - 1]);
      RunKeepsPending(script, run, actions, n - 1);
      RunKeepsInv(script, run, actions, n - 1);
      assert Next(script, w, a, run[n]);
      if a.Step? {
        MoveKeepsPending(script, w, a.tid, a.alt);
      } else {
        ReceiveKeepsPending(script, w, a);
      }
    }
  }

  /** A session at rest has no interjection left: each acknowledged one was said by a turn, became
      a fallback turn, was dropped with a cancelled turn, or was lost. */
  lemma NoneLeftAtRest(script: Script, run: seq<World>, actions: seq<Action>, n: nat)
    requires IsRun(script, run, actions) && n < |run| && Quiescent(run[n])
    ensures run[n].s.pending == [] && run[n].s.merged == []
    ensures var t := run[n].texts; t.acked == t.said + t.started + t.dropped + t.lost
  {
    var w := run[n];
    QuiescentAnswered(script, run, actions, n);
    RunKeepsPending(script, run, actions, n);
    RunKeepsMerged(script, run, actions, n);
    var all := w.texts.said + w.texts.started + w.texts.dropped + w.texts.lost;
    forall x ensures w.texts.acked[x] == all[x] {
      InterjectionsAccounted(script, run, actions, n, x);
      NothingCarried(w.threads, x);
    }
  }
}
