/** cmd/craze-fake-agent/server.go and queue.go: what the client's messages come to, in every
    interleaving of the goroutines. */
module TurnMessages {
  import opened Common
  import opened TurnSections
  import opened TurnRuns

  // ---- every message counts ------------------------------------------------

  function IsPrompt(): Action -> bool { (a: Action) => a.SendPrompt? }

  function Interjects(x: string): Action -> bool { (a: Action) => a == SendInterject(x) }

  /** The goroutines about to note an interjection. */
  function Noting(x: string): Pc -> bool { (pc: Pc) => pc == Interject(x) }

  lemma PrefixWhere<T>(s: seq<T>, n: nat, test: T -> bool)
    requires n < |s|
    ensures |Where(s[..n + 1], test)| == |Where(s[..n], test)| + (if test(s[n]) then 1 else 0)
  {
    assert s[..n + 1] == s[..n] + [s[n]];
    WhereSnoc(s[..n], s[n], test);
  }

  lemma SectionKeepsSeqNo(script: Script, s: Session, pc: Pc, alt: bool)
    ensures Advance(script, s, pc, alt).s.seqNo == s.seqNo
  {
  }

  /** Prompts are numbered as they come, none left out. */
  lemma {:induction false} PromptsCounted(script: Script, run: seq<World>, actions: seq<Action>, n: nat)
    requires IsRun(script, run, actions) && n < |run|
    ensures run[n].s.seqNo == |Where(actions[..n], IsPrompt())|
  {
    if n > 0 {
      var (w, a) := (run[n - 1], actions[n - 1]);
      PromptsCounted(script, run, actions, n - 1);
      PrefixWhere(actions, n - 1, IsPrompt());
      assert Next(script, w, a, run[n]);
      if a.Step? {
        SectionKeepsSeqNo(script, w.s, w.threads[a.tid], a.alt);
      }
    }
  }

  lemma {:induction false} WhereUpdate<T>(s: seq<T>, i: nat, x: T, test: T -> bool)
    requires i < |s|
    ensures |Where(s[i := x], test)| + (if test(s[i]) then 1 else 0) == |Where(s, test)| + (if test(x) then 1 else 0)
  {
    var (t, n) := (s[i := x], |s| - 1);
    WhereLast(s, test);
    WhereLast(t, test);
    if i == n {
      assert t[..n] == s[..n];
    } else {
      assert t[..n] == s[..n][i := x];
      WhereUpdate(s[..n], i, x, test);
    }
  }

  lemma {:induction false} WhereNone<T>(s: seq<T>, more: seq<T>, test: T -> bool)
    requires forall i :: 0 <= i < |more| ==> !test(more[i])
    ensures |Where(s + more, test)| == |Where(s, test)|
    decreases |more|
  {
    if more == [] {
      assert s + more == s;
    } else {
      var init := more[..|more| - 1];
      WhereNone(s, init, test);
      WhereSnoc(s + init, more[|more| - 1], test);
      assert s + more == (s + init) + [more[|more| - 1]];
    }
  }

  /** What a section does with an interjection to be noted, and to those that were. */
  lemma SectionNotes(script: Script, s: Session, pc: Pc, alt: bool, t: Texts, x: string)
    ensures var m := Advance(script, s, pc, alt);
            && m.pc != Interject(x)
            && (forall i :: 0 <= i < |m.spawned| ==> m.spawned[i] != Interject(x))
            && Told(s, pc, t).acked[x] == t.acked[x] + (if pc == Interject(x) then 1 else 0)
  {
  }

  lemma MoveNotes(script: Script, w: World, tid: nat, alt: bool, x: string)
    requires tid < |w.threads|
    ensures var w' := Moved(script, w, tid, alt);
            w'.texts.acked[x] + |Where(w'.threads, Noting(x))| == w.texts.acked[x] + |Where(w.threads, Noting(x))|
  {
    var (pc, m) := (w.threads[tid], Advance(script, w.s, w.threads[tid], alt));
    SectionNotes(script, w.s, pc, alt, w.texts, x);
    WhereUpdate(w.threads, tid, m.pc, Noting(x));
    WhereNone(w.threads[tid := m.pc], m.spawned, Noting(x));
  }

  lemma ReceiveNotes(script: Script, w: World, a: Action, x: string)
    requires script != LongTurn && !a.Step? && w.threads != [] && w.threads[0] == ReadIdle
    ensures var w' := Received(script, w, a);
            && w'.texts == w.texts
            && |Where(w'.threads, Noting(x))|
               == |Where(w.threads, Noting(x))| + (if a == SendInterject(x) then 1 else 0)
  {
    if a.SendInterject? {
      WhereSnoc(w.threads, Interject(a.text), Noting(x));
    } else {
      WhereUpdate(w.threads, 0, Received(script, w, a).threads[0], Noting(x));
    }
  }

  /** Under the scripts that take them, every interjection sent is noted, or a goroutine is about to. */
  lemma {:induction false} InterjectionsNoted(script: Script, run: seq<World>, actions: seq<Action>, n: nat, x: string)
    requires IsRun(script, run, actions) && n < |run| && script != LongTurn
    ensures run[n].texts.acked[x] + |Where(run[n].threads, Noting(x))| == |Where(actions[..n], Interjects(x))|
  {
    if n > 0 {
      var (w, a) := (run[n - 1], actions[n - 1]);
      InterjectionsNoted(script, run, actions, n - 1, x);
      PrefixWhere(actions, n - 1, Interjects(x));
      assert Next(script, w, a, run[n]);
      if a.Step? {
        MoveNotes(script, w, a.tid, a.alt, x);
      } else {
        ReceiveNotes(script, w, a, x);
      }
    }
  }

  // ---- what a message cancels ----------------------------------------------

  /** The message cancels what is held: a session/cancel, and a prompt under long-turn. */
  predicate CancelsHeld(script: Script, a: Action) { a.SendCancel? || (a.SendPrompt? && script == LongTurn) }

  /** It is cancelled, or the read loop is still to do it. */
  predicate WillBeCancelled(w: World, r: Prompt) {
    r in w.s.cancelled || (w.threads != [] && w.threads[0].ReadCancel? && r in w.threads[0].todo)
  }

  lemma MoveCancels(script: Script, w: World, tid: nat, alt: bool, r: Prompt)
    requires ThreadsInv(w) && tid < |w.threads| && Enabled(script, w.s, w.threads[tid], alt) && WillBeCancelled(w, r)
    ensures WillBeCancelled(Moved(script, w, tid, alt), r)
  {
    if tid != 0 {
      OthersCancelNothing(script, w.s, w.threads[tid], alt);
    }
  }

  lemma StaysCancelled(script: Script, w: World, a: Action, w': World, r: Prompt)
    requires ThreadsInv(w) && Next(script, w, a, w') && WillBeCancelled(w, r)
    ensures WillBeCancelled(w', r)
  {
    if a.Step? {
      MoveCancels(script, w, a.tid, a.alt, r);
    }
  }

  /** Every prompt held when such a message comes is cancelled by the time the read loop is idle
      again, and stays so. */
  lemma {:induction false} HeldAreCancelled(script: Script, run: seq<World>, actions: seq<Action>, n: nat, m: nat,
                                            r: Prompt)
    requires IsRun(script, run, actions) && n < m < |run|
    requires CancelsHeld(script, actions[n]) && (r in run[n].s.queued || run[n].s.running == Some(r))
    ensures WillBeCancelled(run[m], r)
    ensures run[m].threads != [] && run[m].threads[0] == ReadIdle ==> r in run[m].s.cancelled
  {
    RunKeepsInv(script, run, actions, m - 1);
    assert Next(script, run[m - 1], actions[m - 1], run[m]);
    if m > n + 1 {
      HeldAreCancelled(script, run, actions, n, m - 1, r);
      StaysCancelled(script, run[m - 1], actions[m - 1], run[m], r);
    }
  }

  lemma SectionCancels(script: Script, s: Session, pc: Pc, alt: bool)
    requires script != LongTurn && s.cancelled == {} && !pc.ReadCancel?
    ensures var m := Advance(script, s, pc, alt);
            m.s.cancelled == {} && !m.pc.ReadCancel? && forall i :: 0 <= i < |m.spawned| ==> !m.spawned[i].ReadCancel?
  {
  }

  /** And nothing else cancels: under the other scripts, without a session/cancel no prompt is. */
  lemma {:induction false} NothingElseCancels(script: Script, run: seq<World>, actions: seq<Action>, n: nat)
    requires IsRun(script, run, actions) && n < |run| && script != LongTurn
    requires forall i :: 0 <= i < n ==> !actions[i].SendCancel?
    ensures run[n].s.cancelled == {} && forall i :: 0 <= i < |run[n].threads| ==> !run[n].threads[i].ReadCancel?
  {
    if n > 0 {
      var (w, a) := (run[n - 1], actions[n - 1]);
      NothingElseCancels(script, run, actions, n - 1);
      assert Next(script, w, a, run[n]);
      if a.Step? {
        SectionCancels(script, w.s, w.threads[a.tid], a.alt);
      }
    }
  }

  // ---- safe points and fallback turns --------------------------------------

  /** After a step nothing stays pending, but under the fallback script, whose turns never take an
      interjection in. */
  lemma SafePoints(script: Script, run: seq<World>, actions: seq<Action>, n: nat)
    requires IsRun(script, run, actions) && n < |actions|
    ensures var a := actions[n];
            a.Step? && a.tid < |run[n].threads| && run[n].threads[a.tid].RunMerge? && script != GrokFallback ==>
              run[n + 1].s.pending == [] && run[n + 1].s.merged == run[n].s.merged + run[n].s.pending
    ensures script == GrokFallback ==> run[n].s.merged == [] && run[n].texts.said == multiset{}
  {
    assert Next(script, run[n], actions[n], run[n + 1]);
    if script == GrokFallback {
      NeverMerges(run, actions, n);
    }
  }

  lemma {:induction false} NeverMerges(run: seq<World>, actions: seq<Action>, n: nat)
    requires IsRun(GrokFallback, run, actions) && n < |run|
    ensures run[n].s.merged == [] && run[n].texts.said == multiset{}
  {
    if n > 0 {
      var (w, a) := (run[n - 1], actions[n - 1]);
      NeverMerges(run, actions, n - 1);
      assert Next(GrokFallback, w, a, run[n]);
      if a.Step? {
        SectionMergesNothing(w.s, w.threads[a.tid], a.alt, w.texts);
      }
    }
  }

  lemma SectionMergesNothing(s: Session, pc: Pc, alt: bool, t: Texts)
    requires s.merged == [] && t.said == multiset{}
    ensures Advance(GrokFallback, s, pc, alt).s.merged == [] && Told(s, pc, t).said == multiset{}
  {
  }

  /** A goroutine on its way out takes what is pending exactly when nothing has the session: no
      turn is running, no runner is going and no fallback turn is on. */
  lemma TakenWhenIdle(script: Script, run: seq<World>, actions: seq<Action>, n: nat)
    requires IsRun(script, run, actions) && n < |actions|
    ensures var (s, a) := (run[n].s, actions[n]);
            a.Step? && a.tid < |run[n].threads| && run[n].threads[a.tid].Strand? ==>
              (run[n + 1].threads[a.tid] == StrandStart(s.pending)
               <==> script != LongTurn && s.pending != [] && s.running == None && !s.draining && !s.fallbackOn)
    ensures var (s, a) := (run[n].s, actions[n]);
            a.Step? && a.tid < |run[n].threads| && run[n].threads[a.tid].Strand? ==>
              run[n + 1].s.pending == (if run[n + 1].threads[a.tid].StrandStart? then [] else s.pending)
  {
    assert Next(script, run[n], actions[n], run[n + 1]);
  }

  /** A turn that strands an interjection of its own, under the fallback script, ends with a
      fallback turn on; under the others none does. */
  lemma OwnInterjection(script: Script, run: seq<World>, actions: seq<Action>, n: nat)
    requires IsRun(script, run, actions) && n < |actions|
    ensures var a := actions[n];
            a.Step? && a.tid < |run[n].threads| && run[n].threads[a.tid].RunStrand? ==>
              && (a.alt ==> script == GrokFallback && run[n + 1].s.fallbackOn)
              && (!a.alt ==> run[n + 1].s == run[n].s && |run[n + 1].threads| == |run[n].threads|)
  {
    assert Next(script, run[n], actions[n], run[n + 1]);
  }

  /** Fallback turns are numbered as they start: the number goes up by one when one starts, which
      it does only when none is on, and at no other time. */
  lemma FallbacksNumbered(script: Script, run: seq<World>, actions: seq<Action>, n: nat)
    requires IsRun(script, run, actions) && n < |actions|
    ensures var (s, s') := (run[n].s, run[n + 1].s);
            && s'.fallbackSeq == s.fallbackSeq + (if !s.fallbackOn && s'.fallbackOn then 1 else 0)
            && (!s.fallbackOn && s'.fallbackOn
                <==> Count(Fallback, run[n + 1].threads) > Count(Fallback, run[n].threads))
  {
    var (w, a) := (run[n], actions[n]);
    RunKeepsInv(script, run, actions, n);
    RunKeepsInv(script, run, actions, n + 1);
    assert Next(script, w, a, run[n + 1]);
    if a.Step? {
      SectionNumbers(script, w.s, w.threads[a.tid], a.alt);
    }
  }

  lemma SectionNumbers(script: Script, s: Session, pc: Pc, alt: bool)
    ensures var s' := Advance(script, s, pc, alt).s;
            s'.fallbackSeq == s.fallbackSeq + (if !s.fallbackOn && s'.fallbackOn then 1 else 0)
  {
  }
}
