/** cmd/craze-fake-agent/queue.go and server.go: the read loop, the runner and the fallback
    goroutines, interleaved at the server's mutex sections in any order. */
module TurnRuns {
  import opened Common
  import opened TurnSections

  datatype Stop = EndedTurn | Cancelled

  /** Where a goroutine is, between two sections. */
  datatype Pc =
    | Gone
    // the read loop
    | ReadIdle                                        // waiting for a message
    | ReadCancel(todo: seq<Prompt>, prompting: bool)  // cancelling what a prompt overtook, or the session
    | ReadKick                                        // about to kick the runner
    // the turn runner
    | RunTop                                          // at the head of its loop
    | RunPicked(r: Prompt)                            // about to look whether r was cancelled
    | RunStep(r: Prompt, step: nat)                   // in one of the turn's two steps
    | RunMerge(r: Prompt, step: nat)                  // at the safe point after a step
    | RunSay(r: Prompt)                               // about to take what was merged
    | RunStrand(r: Prompt)                            // about to strand an interjection of its own
    | RunEnd(r: Prompt, stop: Stop)                   // about to end the turn
    | RunReply(r: Prompt, stop: Stop)                 // about to write the reply
    // any goroutine on its way out
    | Strand                                          // about to look for a stranded interjection
    | StrandStart(texts: seq<string>)                 // about to start the fallback for what it took
    | Interject(text: string)                         // an interjection just acknowledged
    // the fallback turn
    | FallbackTurn                                    // holding the session
    | FallbackKick                                    // about to kick the runner

  datatype Reply = Reply(r: Prompt, stop: Stop)

  /** Where the interjections acknowledged so far went: said by a turn; a fallback turn started
      for them; dropped with the turn they had joined; lost, a fallback turn being on already. */
  datatype Texts = Texts(acked: multiset<string>, said: multiset<string>, started: multiset<string>,
                         dropped: multiset<string>, lost: multiset<string>)

  const NoTexts: Texts := Texts(multiset{}, multiset{}, multiset{}, multiset{}, multiset{})

  /** `replies`: what was answered, in order. `ran`: the prompts whose turn ran a step.
      `doomed`: the prompts cancelled before their turn started. `stepped`: the steps that
      turns completed. */
  datatype World = World(s: Session, threads: seq<Pc>, replies: seq<Reply>, ran: set<Prompt>, doomed: set<Prompt>,
                         stepped: set<(Prompt, nat)>, texts: Texts)

  const Start: World := World(NewSession, [ReadIdle], [], {}, {}, {}, NoTexts)

  /** What the client sends, and which goroutine goes on (taking the turn's other way out
      when `alt`: a step cut short, a turn that strands an interjection). */
  datatype Action = SendPrompt | SendCancel | SendInterject(text: string) | Step(tid: nat, alt: bool)

  /** One goroutine's section: the session after it, where the goroutine is then, and the
      goroutine it started. */
  datatype Move = Move(s: Session, pc: Pc, spawned: seq<Pc>)

  function Goes(s: Session, pc: Pc): Move { Move(s, pc, []) }

  function Kicked(s: Session, pc: Pc): Move { Move(Drain(s), pc, if s.draining then [] else [RunTop]) }

  function WithFallback(s: Session, pc: Pc): Move {
    Move(StartFallback(s), pc, if s.fallbackOn then [] else [FallbackTurn])
  }

  predicate Enabled(script: Script, s: Session, pc: Pc, alt: bool) {
    match pc
    case Gone => false
    case ReadIdle => false
    case RunStep(r, _) => alt ==> r in s.cancelled
    case RunStrand(_) => alt ==> script == GrokFallback
    case _ => !alt
  }

  function Advance(script: Script, s: Session, pc: Pc, alt: bool): Move {
    match pc
    case ReadCancel(todo, prompting) =>
      if todo != [] then Goes(CancelOne(s, todo[0]), ReadCancel(todo[1..], prompting))
      else Goes(s, if prompting then ReadKick else ReadIdle)
    case ReadKick => Kicked(s, ReadIdle)
    case RunTop =>
      Goes(TakeNext(s), if s.queued == [] || s.fallbackOn then Strand else RunPicked(s.queued[0]))
    case RunPicked(r) => Goes(s, if r in s.cancelled then RunEnd(r, Cancelled) else RunStep(r, 0))
    case RunStep(r, i) => Goes(s, if alt then RunEnd(r, Cancelled) else RunMerge(r, i))
    case RunMerge(r, i) =>
      Goes(Merge(script, s), if i == 0 then RunStep(r, 1) else RunSay(r))
    case RunSay(r) => Goes(ClearMerged(s), RunStrand(r))
    case RunStrand(r) => if alt then WithFallback(s, RunEnd(r, EndedTurn)) else Goes(s, RunEnd(r, EndedTurn))
    case RunEnd(r, stop) => if r in s.once then Goes(s, RunTop) else Goes(EndSection(s, r), RunReply(r, stop))
    case RunReply(_, _) => Goes(s, RunTop)
    case Strand =>
      if script != LongTurn && Stranded(s) then Goes(TakeStranded(s), StrandStart(s.pending)) else Goes(s, Gone)
    case StrandStart(_) => WithFallback(s, Gone)
    case Interject(text) => Goes(AddPending(s, text), Strand)
    case FallbackTurn => Goes(StopFallback(s), FallbackKick)
    case FallbackKick => Kicked(s, Gone)
    case Gone => Goes(s, pc)
    case ReadIdle => Goes(s, pc)
  }

  /** The prompt's turn has not started: it is queued, or picked and not yet looked at. */
  predicate NotStarted(w: World, r: Prompt) { r in w.s.queued || RunPicked(r) in w.threads }

  /** What a goroutine's section does with interjections. */
  function Told(s: Session, pc: Pc, t: Texts): Texts {
    match pc
    case Interject(text) => t.(acked := t.acked + multiset{text})
    case RunSay(_) => t.(said := t.said + multiset(s.merged))
    case RunEnd(r, _) => if r in s.once then t else t.(dropped := t.dropped + multiset(s.merged))
    case StrandStart(texts) =>
      if s.fallbackOn then t.(lost := t.lost + multiset(texts)) else t.(started := t.started + multiset(texts))
    case _ => t
  }

  /** The world once goroutine `tid` made its move; cancelling a prompt before its turn starts dooms it. */
  function Moved(script: Script, w: World, tid: nat, alt: bool): World
    requires tid < |w.threads|
  {
    var pc := w.threads[tid];
    var m := Advance(script, w.s, pc, alt);
    World(m.s, w.threads[tid := m.pc] + m.spawned,
          if pc.RunReply? then w.replies + [Reply(pc.r, pc.stop)] else w.replies,
          if pc.RunPicked? && m.pc.RunStep? then w.ran + {pc.r} else w.ran,
          if pc.ReadCancel? && pc.todo != [] && NotStarted(w, pc.todo[0]) then w.doomed + {pc.todo[0]} else w.doomed,
          if pc.RunStep? && m.pc.RunMerge? then w.stepped + {(pc.r, pc.step)} else w.stepped,
          Told(w.s, pc, w.texts))
  }

  /** The read loop's handling of a message, up to its first section. */
  function Received(script: Script, w: World, a: Action): World
    requires w.threads != []
  {
    match a
    case SendPrompt =>
      w.(s := Begin(w.s),
         threads := w.threads[0 := if script == LongTurn then ReadCancel(Held(w.s), true) else ReadKick])
    case SendCancel => w.(threads := w.threads[0 := ReadCancel(Held(w.s), false)])
    case SendInterject(text) => w.(threads := w.threads + (if script == LongTurn then [] else [Interject(text)]))
    case Step(_, _) => w
  }

  /** A goroutine's section, as the server's own methods run it: exactly the move above. */
  method Section(server: Server, pc: Pc, alt: bool) returns (next: Pc, spawned: seq<Pc>)
    modifies server
    ensures Move(server.State(), next, spawned) == Advance(server.script, old(server.State()), pc, alt)
  {
    next, spawned := pc, [];
    match pc {
      case ReadCancel(todo, prompting) =>
        if todo != [] {
          server.CancelReq(todo[0]);
          next := ReadCancel(todo[1..], prompting);
        } else {
          next := if prompting then ReadKick else ReadIdle;
        }
      case ReadKick =>
        var start := server.Kick();
        next, spawned := ReadIdle, if start then [RunTop] else [];
      case RunTop =>
        var taken := server.Take();
        next := if taken.Some? then RunPicked(taken.value) else Strand;
      case RunPicked(r) => next := if r in server.cancelled then RunEnd(r, Cancelled) else RunStep(r, 0);
      case RunStep(r, i) => next := if alt then RunEnd(r, Cancelled) else RunMerge(r, i);
      case RunMerge(r, i) =>
        server.MergeInterjections();
        next := if i == 0 then RunStep(r, 1) else RunSay(r);
      case RunSay(r) =>
        var steps := server.TakeMerged();
        next := RunStrand(r);
      case RunStrand(r) =>
        next := RunEnd(r, EndedTurn);
        if alt {
          var start := server.BeginFallback();
          spawned := if start then [FallbackTurn] else [];
        }
      case RunEnd(r, stop) =>
        var reply := server.EndTurn(r);
        next := if reply then RunReply(r, stop) else RunTop;
      case RunReply(_, _) => next := RunTop;
      case Strand =>
        next := Gone;
        if server.script != LongTurn {
          var stranded, texts := server.TakeStrandedText();
          next := if stranded then StrandStart(texts) else Gone;
        }
      case StrandStart(_) =>
        var start := server.BeginFallback();
        next, spawned := Gone, if start then [FallbackTurn] else [];
      case Interject(text) =>
        server.AddInterjection(text);
        next := Strand;
      case FallbackTurn =>
        server.EndFallback();
        next := FallbackKick;
      case FallbackKick =>
        var start := server.Kick();
        next, spawned := Gone, if start then [RunTop] else [];
      case Gone =>
      case ReadIdle =>
    }
  }

  /** What the read loop does with a message: a prompt is registered, and overtakes what was
      held; a session/cancel takes all that is held; an interjection has a goroutine. */
  method Receive(server: Server, a: Action) returns (next: Pc, spawned: seq<Pc>)
    requires !a.Step?
    modifies server
    ensures forall w: World :: w.threads == [ReadIdle] && w.s == old(server.State()) ==>
              Received(server.script, w, a) == w.(s := server.State(), threads := [next] + spawned)
  {
    next, spawned := ReadIdle, [];
    if a.SendPrompt? {
      var r, overtaken := server.BeginPrompt();
      next := if server.script == LongTurn then ReadCancel(overtaken, true) else ReadKick;
    } else if a.SendCancel? {
      var reqs := server.HeldPrompts();
      next := ReadCancel(reqs, false);
    } else if server.script != LongTurn {
      spawned := [Interject(a.text)];
    }
  }

  ghost predicate Next(script: Script, w: World, a: Action, w': World) {
    w.threads != [] &&
    match a
    case Step(tid, alt) =>
      tid < |w.threads| && Enabled(script, w.s, w.threads[tid], alt) && w' == Moved(script, w, tid, alt)
    case _ => w.threads[0] == ReadIdle && w' == Received(script, w, a)
  }

  // ---- counting goroutines -------------------------------------------------

  predicate IsRead(pc: Pc) { pc.ReadIdle? || pc.ReadCancel? || pc.ReadKick? }

  predicate IsRunner(pc: Pc) {
    || pc.RunTop? || pc.RunPicked? || pc.RunStep? || pc.RunMerge?
    || pc.RunSay? || pc.RunStrand? || pc.RunEnd? || pc.RunReply?
  }

  /** The goroutine is on its way to kick the runner. */
  predicate Waking(pc: Pc) { pc.FallbackKick? || pc.ReadKick? || (pc.ReadCancel? && pc.prompting) }

  datatype Role = Runner | Fallback | Waker

  function Plays(role: Role, pc: Pc): nat {
    match role
    case Runner => if IsRunner(pc) then 1 else 0
    case Fallback => if pc.FallbackTurn? then 1 else 0
    case Waker => if Waking(pc) then 1 else 0
  }

  function Count(role: Role, pcs: seq<Pc>): nat {
    if pcs == [] then 0 else Count(role, pcs[..|pcs| - 1]) + Plays(role, pcs[|pcs| - 1])
  }

  lemma {:induction false} CountConcat(role: Role, a: seq<Pc>, b: seq<Pc>)
    ensures Count(role, a + b) == Count(role, a) + Count(role, b)
    decreases |b|
  {
    if b == [] {
      assert a + b == a;
    } else {
      assert (a + b)[..|a + b| - 1] == a + b[..|b| - 1];
      CountConcat(role, a, b[..|b| - 1]);
    }
  }

  lemma {:induction false} CountUpdate(role: Role, pcs: seq<Pc>, i: nat, pc: Pc)
    requires i < |pcs|
    ensures Count(role, pcs[i := pc]) == Count(role, pcs) - Plays(role, pcs[i]) + Plays(role, pc)
  {
    if i == |pcs| - 1 {
      assert pcs[i := pc][..i] == pcs[..i];
    } else {
      assert pcs[i := pc][..|pcs| - 1] == pcs[..|pcs| - 1][i := pc];
      CountUpdate(role, pcs[..|pcs| - 1], i, pc);
    }
  }

  lemma {:induction false} CountAtLeast(role: Role, pcs: seq<Pc>, i: nat)
    requires i < |pcs|
    ensures Count(role, pcs) >= Plays(role, pcs[i])
  {
    if i < |pcs| - 1 {
      CountAtLeast(role, pcs[..|pcs| - 1], i);
    }
  }

  /** Two goroutines in one role count for two. */
  lemma {:induction false} CountTwo(role: Role, pcs: seq<Pc>, i: nat, j: nat)
    requires i < j < |pcs|
    ensures Count(role, pcs) >= Plays(role, pcs[i]) + Plays(role, pcs[j])
  {
    if j < |pcs| - 1 {
      CountTwo(role, pcs[..|pcs| - 1], i, j);
    } else {
      CountAtLeast(role, pcs[..|pcs| - 1], i);
    }
  }

  lemma {:induction false} CountNone(role: Role, pcs: seq<Pc>)
    requires forall i :: 0 <= i < |pcs| ==> Plays(role, pcs[i]) == 0
    ensures Count(role, pcs) == 0
  {
    if pcs != [] {
      CountNone(role, pcs[..|pcs| - 1]);
    }
  }

  /** What a move does to a role's count. */
  lemma CountMove(role: Role, pcs: seq<Pc>, tid: nat, m: Move)
    requires tid < |pcs| && |m.spawned| <= 1
    ensures Count(role, pcs[tid := m.pc] + m.spawned)
         == Count(role, pcs) - Plays(role, pcs[tid]) + Plays(role, m.pc)
            + (if m.spawned == [] then 0 else Plays(role, m.spawned[0]))
  {
    CountUpdate(role, pcs, tid, m.pc);
    CountConcat(role, pcs[tid := m.pc], m.spawned);
    if m.spawned != [] {
      assert m.spawned[..0] == [];
      assert Count(role, m.spawned[..0]) == 0;
    }
  }

  // ---- the invariant -------------------------------------------------------

  /** How many prompts the runner has picked. */
  function Picked(s: Session): int { s.seqNo - |s.queued| }

  /** The prompt a runner has been on since it picked it, until it is answered. */
  function About(pc: Pc): Option<Prompt> {
    match pc
    case RunPicked(r) => Some(r)
    case RunStep(r, _) => Some(r)
    case RunMerge(r, _) => Some(r)
    case RunSay(r) => Some(r)
    case RunStrand(r) => Some(r)
    case RunEnd(r, _) => Some(r)
    case RunReply(r, _) => Some(r)
    case _ => None
  }

  /** The prompt whose turn is the running one, by where the runner is. */
  function Holding(pc: Pc): Option<Prompt> { if pc.RunReply? then None else About(pc) }

  /** The picked prompt not answered yet, if there is one. */
  function Current(w: World): Option<Prompt> {
    if |w.replies| < Picked(w.s) && Picked(w.s) >= 0 then Some(Picked(w.s)) else None
  }

  /** The queue holds the last prompts that arrived, in order. */
  ghost predicate QueueInOrder(s: Session) {
    && |s.queued| <= s.seqNo
    && forall i :: 0 <= i < |s.queued| ==> s.queued[i] == Picked(s) + 1 + i
  }

  /** The first prompts that arrived are answered, once each, in order. */
  ghost predicate AnsweredInOrder(w: World) {
    && Picked(w.s) - 1 <= |w.replies| <= Picked(w.s)
    && forall i :: 0 <= i < |w.replies| ==> w.replies[i].r == i + 1
  }

  /** How a runner stands to the session. */
  ghost predicate RunnerInv(w: World, pc: Pc) {
    IsRunner(pc) ==>
      && w.s.running == Holding(pc) && About(pc) == Current(w)
      && (pc.RunStep? || pc.RunMerge? ==> pc.step <= 1)
      && (pc.RunReply? ==> pc.r in w.s.once)
  }

  /** The session by itself: no runner, no turn; and a reply is begun only for a prompt
      answered, or the one about to be. */
  ghost predicate SessionInv(w: World) {
    && QueueInOrder(w.s) && AnsweredInOrder(w)
    && (!w.s.draining ==> w.s.running == None && |w.replies| == Picked(w.s))
    && (forall r :: r in w.s.once ==> r <= |w.replies| || (Current(w) == Some(r) && w.s.running == None))
  }

  /** At most one runner and one fallback turn; and a queue that is not empty has something
      that will come to it. */
  ghost predicate RolesInv(w: World) {
    && Count(Runner, w.threads) == (if w.s.draining then 1 else 0)
    && Count(Fallback, w.threads) == (if w.s.fallbackOn then 1 else 0)
    && (w.s.queued != [] ==> w.s.draining || w.s.fallbackOn || Count(Waker, w.threads) > 0)
  }

  ghost predicate ThreadsInv(w: World) {
    && w.threads != [] && IsRead(w.threads[0])
    && (forall i :: 1 <= i < |w.threads| ==> !IsRead(w.threads[i]))
    && (forall i :: 0 <= i < |w.threads| ==> RunnerInv(w, w.threads[i]))
  }

  /** What a runner may be doing with a prompt cancelled before its turn started. */
  predicate DoomedPc(w: World, pc: Pc) {
    About(pc).Some? && About(pc).value in w.doomed ==>
      pc.RunPicked? || (pc.RunEnd? && pc.stop == Cancelled) || (pc.RunReply? && pc.stop == Cancelled)
  }

  /** A prompt cancelled before its turn started runs no step and is answered cancelled. */
  ghost predicate DoomedInv(w: World) {
    && w.doomed <= w.s.cancelled
    && w.doomed !! w.ran
    && (forall i :: 0 <= i < |w.replies| ==> w.replies[i].r in w.doomed ==> w.replies[i].stop == Cancelled)
    && (forall r :: r in w.ran ==> r <= Picked(w.s))
    && (forall i :: 0 <= i < |w.threads| ==>
          DoomedPc(w, w.threads[i]) && (w.threads[i].RunPicked? ==> w.threads[i].r !in w.ran))
  }

  /** What the read loop has still to cancel: under long-turn everything but the newest
      prompt, under session/cancel everything. */
  ghost predicate CancelInv(script: Script, w: World) {
    w.threads != [] &&
    var pc := w.threads[0];
    forall r :: r in Held(w.s) && r !in w.s.cancelled ==>
      && (script == LongTurn && !pc.ReadCancel? ==> r == w.s.seqNo)
      && (script == LongTurn && pc.ReadCancel? && pc.prompting ==> r == w.s.seqNo || r in pc.todo)
      && (pc.ReadCancel? && !pc.prompting ==> r in pc.todo)
  }

  ghost predicate Inv(script: Script, w: World) {
    SessionInv(w) && ThreadsInv(w) && RolesInv(w) && DoomedInv(w) && CancelInv(script, w)
  }

  // ---- one move ------------------------------------------------------------

  /** The runner is the only one. */
  lemma OneRunner(w: World, i: nat, j: nat)
    requires RolesInv(w) && i < |w.threads| && j < |w.threads|
    requires IsRunner(w.threads[i]) && IsRunner(w.threads[j])
    ensures i == j && w.s.draining
  {
    if i < j {
      CountTwo(Runner, w.threads, i, j);
    } else if j < i {
      CountTwo(Runner, w.threads, j, i);
    } else {
      CountAtLeast(Runner, w.threads, i);
    }
  }

  /** A role's count after a move, from its count before. */
  function After(role: Role, n: int, pc: Pc, m: Move): int {
    n - Plays(role, pc) + Plays(role, m.pc) + (if m.spawned == [] then 0 else Plays(role, m.spawned[0]))
  }

  predicate RoleCounts(s: Session, runners: int, fallbacks: int, wakers: int) {
    && runners == (if s.draining then 1 else 0)
    && fallbacks == (if s.fallbackOn then 1 else 0)
    && (s.queued != [] ==> s.draining || s.fallbackOn || wakers > 0)
  }

  /** What every move does to the flags it does to the goroutines. */
  lemma CountsFollowFlags(script: Script, s: Session, pc: Pc, alt: bool, runners: int, fallbacks: int, wakers: int)
    requires Enabled(script, s, pc, alt) && RoleCounts(s, runners, fallbacks, wakers)
    requires Plays(Runner, pc) <= runners && Plays(Fallback, pc) <= fallbacks && Plays(Waker, pc) <= wakers
    ensures var m := Advance(script, s, pc, alt);
            && RoleCounts(m.s, After(Runner, runners, pc, m), After(Fallback, fallbacks, pc, m),
                          After(Waker, wakers, pc, m))
            && |m.spawned| <= 1
  {
  }

  lemma MoveKeepsRoles(script: Script, w: World, tid: nat, alt: bool)
    requires RolesInv(w) && tid < |w.threads| && Enabled(script, w.s, w.threads[tid], alt)
    ensures RolesInv(Moved(script, w, tid, alt))
  {
    var pc := w.threads[tid];
    var m := Advance(script, w.s, pc, alt);
    CountAtLeast(Runner, w.threads, tid);
    CountAtLeast(Fallback, w.threads, tid);
    CountAtLeast(Waker, w.threads, tid);
    CountsFollowFlags(script, w.s, pc, alt,
                      Count(Runner, w.threads), Count(Fallback, w.threads), Count(Waker, w.threads));
    CountMove(Runner, w.threads, tid, m);
    CountMove(Fallback, w.threads, tid, m);
    CountMove(Waker, w.threads, tid, m);
  }

  /** The runner's move: where it goes fits the session it leaves. */
  lemma RunnerMove(script: Script, w: World, tid: nat, alt: bool)
    requires SessionInv(w) && w.s.draining && tid < |w.threads|
    requires IsRunner(w.threads[tid]) && RunnerInv(w, w.threads[tid]) && Enabled(script, w.s, w.threads[tid], alt)
    ensures var w' := Moved(script, w, tid, alt);
            var m := Advance(script, w.s, w.threads[tid], alt);
            SessionInv(w') && RunnerInv(w', m.pc) && (m.spawned == [] || m.spawned == [FallbackTurn])
  {
  }

  /** What any other goroutine's section leaves alone; it may start a runner. */
  lemma OtherAdvance(script: Script, s: Session, pc: Pc, alt: bool)
    requires !IsRunner(pc) && Enabled(script, s, pc, alt)
    ensures var m := Advance(script, s, pc, alt);
            && m.s.running == s.running && m.s.once == s.once && m.s.queued == s.queued && m.s.seqNo == s.seqNo
            && (s.draining ==> m.s.draining) && !IsRunner(m.pc)
            && (m.spawned == [] || m.spawned == [FallbackTurn] || m.spawned == [RunTop])
            && (!s.draining && m.s.draining <==> m.spawned == [RunTop])
  {
  }

  /** Any other goroutine's move leaves the runner's business alone; it may start one. */
  lemma OtherMove(script: Script, w: World, tid: nat, alt: bool)
    requires SessionInv(w) && tid < |w.threads|
    requires !IsRunner(w.threads[tid]) && Enabled(script, w.s, w.threads[tid], alt)
    ensures var w' := Moved(script, w, tid, alt);
            var m := Advance(script, w.s, w.threads[tid], alt);
            && SessionInv(w') && !IsRunner(m.pc)
            && w'.s.running == w.s.running && w'.s.once == w.s.once
            && Current(w') == Current(w) && w'.s.queued == w.s.queued
            && (m.spawned == [] || m.spawned == [FallbackTurn] || m.spawned == [RunTop])
            && (m.spawned == [RunTop] ==> RunnerInv(w', RunTop))
  {
    OtherAdvance(script, w.s, w.threads[tid], alt);
  }

  lemma MoveKeepsThreads(script: Script, w: World, tid: nat, alt: bool)
    requires SessionInv(w) && ThreadsInv(w) && RolesInv(w)
    requires tid < |w.threads| && Enabled(script, w.s, w.threads[tid], alt)
    ensures SessionInv(Moved(script, w, tid, alt)) && ThreadsInv(Moved(script, w, tid, alt))
  {
    var w' := Moved(script, w, tid, alt);
    var m := Advance(script, w.s, w.threads[tid], alt);
    if IsRunner(w.threads[tid]) {
      OneRunner(w, tid, tid);
      RunnerMove(script, w, tid, alt);
    } else {
      OtherMove(script, w, tid, alt);
    }
    forall i | 0 <= i < |w'.threads| ensures RunnerInv(w', w'.threads[i]) && (i > 0 ==> !IsRead(w'.threads[i])) {
      if i < |w.threads| && i != tid && IsRunner(w.threads[i]) {
        assert RunnerInv(w, w.threads[i]);
        if IsRunner(w.threads[tid]) {
          OneRunner(w, i, tid);
        }
      }
    }
  }

  /** A prompt newly doomed has neither run a step nor been answered. */
  lemma NewlyDoomed(script: Script, w: World, tid: nat, alt: bool, r: Prompt)
    requires Inv(script, w) && tid < |w.threads| && Enabled(script, w.s, w.threads[tid], alt)
    requires r in Moved(script, w, tid, alt).doomed && r !in w.doomed
    ensures r !in w.ran && r > |w.replies| && r in Moved(script, w, tid, alt).s.cancelled
    ensures forall i :: 0 <= i < |w.threads| && About(w.threads[i]) == Some(r) ==> w.threads[i].RunPicked?
  {
    if r in w.s.queued {
      assert r > Picked(w.s);
      forall i | 0 <= i < |w.threads| && About(w.threads[i]) == Some(r) ensures w.threads[i].RunPicked? {
        assert RunnerInv(w, w.threads[i]);
      }
    } else {
      var k :| 0 <= k < |w.threads| && w.threads[k] == RunPicked(r);
      assert RunnerInv(w, w.threads[k]);
      forall i | 0 <= i < |w.threads| && About(w.threads[i]) == Some(r) ensures w.threads[i].RunPicked? {
        OneRunner(w, i, k);
      }
    }
  }

  lemma MoveKeepsDoomedPcs(script: Script, w: World, tid: nat, alt: bool, i: nat)
    requires Inv(script, w) && tid < |w.threads| && Enabled(script, w.s, w.threads[tid], alt)
    requires i < |Moved(script, w, tid, alt).threads|
    ensures var w' := Moved(script, w, tid, alt);
            DoomedPc(w', w'.threads[i]) && (w'.threads[i].RunPicked? ==> w'.threads[i].r !in w'.ran)
  {
    var w' := Moved(script, w, tid, alt);
    assert RunnerInv(w, w.threads[tid]) && DoomedPc(w, w.threads[tid]);
    if i < |w.threads| && i != tid {
      assert DoomedPc(w, w.threads[i]) && RunnerInv(w, w.threads[i]);
      if About(w.threads[i]).Some? {
        if About(w.threads[i]).value in w'.doomed - w.doomed {
          NewlyDoomed(script, w, tid, alt, About(w.threads[i]).value);
        }
        if IsRunner(w.threads[tid]) {
          OneRunner(w, i, tid);
        }
      }
    }
  }

  lemma MoveKeepsDoomed(script: Script, w: World, tid: nat, alt: bool)
    requires Inv(script, w) && tid < |w.threads| && Enabled(script, w.s, w.threads[tid], alt)
    ensures DoomedInv(Moved(script, w, tid, alt))
  {
    var w' := Moved(script, w, tid, alt);
    assert RunnerInv(w, w.threads[tid]) && DoomedPc(w, w.threads[tid]);
    forall i | 0 <= i < |w'.threads|
      ensures DoomedPc(w', w'.threads[i]) && (w'.threads[i].RunPicked? ==> w'.threads[i].r !in w'.ran)
    {
      MoveKeepsDoomedPcs(script, w, tid, alt, i);
    }
    forall r | r in w'.doomed && r !in w.doomed ensures r !in w'.ran && r > |w.replies| && r in w'.s.cancelled {
      NewlyDoomed(script, w, tid, alt, r);
    }
    assert forall i :: 0 <= i < |w.replies| ==> w.replies[i].r == i + 1;
  }

  lemma MoveKeepsCancel(script: Script, w: World, tid: nat, alt: bool)
    requires Inv(script, w) && tid < |w.threads| && Enabled(script, w.s, w.threads[tid], alt)
    ensures CancelInv(script, Moved(script, w, tid, alt))
  {
    if tid == 0 {
      ReadMoveKeepsCancel(script, w, alt);
    } else {
      var w' := Moved(script, w, tid, alt);
      forall r | r in Held(w'.s) ensures r in Held(w.s) {
        HeldOnlyShrinks(script, w.s, w.threads[tid], alt, r);
      }
      OthersCancelNothing(script, w.s, w.threads[tid], alt);
      FewerHeld(script, w, w');
    }
  }

  lemma OthersCancelNothing(script: Script, s: Session, pc: Pc, alt: bool)
    requires !IsRead(pc)
    ensures Advance(script, s, pc, alt).s.cancelled == s.cancelled && Advance(script, s, pc, alt).s.seqNo == s.seqNo
  {
  }

  lemma FewerHeld(script: Script, w: World, w': World)
    requires CancelInv(script, w) && w'.threads != [] && w'.threads[0] == w.threads[0]
    requires w'.s.cancelled == w.s.cancelled && w'.s.seqNo == w.s.seqNo
    requires forall r :: r in Held(w'.s) ==> r in Held(w.s)
    ensures CancelInv(script, w')
  {
  }

  lemma ReadMoveKeepsCancel(script: Script, w: World, alt: bool)
    requires Inv(script, w) && Enabled(script, w.s, w.threads[0], alt)
    ensures CancelInv(script, Moved(script, w, 0, alt))
  {
    assert Held(Moved(script, w, 0, alt).s) == Held(w.s);
  }

  /** No move holds a prompt that was not held. */
  lemma HeldOnlyShrinks(script: Script, s: Session, pc: Pc, alt: bool, r: Prompt)
    requires r in Held(Advance(script, s, pc, alt).s)
    ensures r in Held(s)
  {
  }

  /** A message changes nothing for the goroutines that run. */
  lemma ReceiveKeepsRoles(script: Script, w: World, a: Action)
    requires RolesInv(w) && !a.Step? && w.threads != [] && w.threads[0] == ReadIdle
    ensures RolesInv(Received(script, w, a))
  {
    var w' := Received(script, w, a);
    ReceiveCounts(script, w, a, Runner);
    ReceiveCounts(script, w, a, Fallback);
    ReceiveCounts(script, w, a, Waker);
  }

  /** The read loop may become a waker; an interjection's goroutine has no role yet. */
  lemma ReceiveCounts(script: Script, w: World, a: Action, role: Role)
    requires !a.Step? && w.threads != [] && w.threads[0] == ReadIdle
    ensures var w' := Received(script, w, a);
            Count(role, w'.threads) == Count(role, w.threads) + Plays(role, w'.threads[0])
  {
    var pc := Received(script, w, a).threads[0];
    if a.SendInterject? {
      CountConcat(role, w.threads, if script == LongTurn then [] else [Interject(a.text)]);
      assert [Interject(a.text)][..0] == [];
    } else {
      CountUpdate(role, w.threads, 0, pc);
    }
  }

  lemma ReceiveKeepsThreads(script: Script, w: World, a: Action)
    requires SessionInv(w) && ThreadsInv(w) && DoomedInv(w) && !a.Step? && w.threads[0] == ReadIdle
    ensures var w' := Received(script, w, a); SessionInv(w') && ThreadsInv(w') && DoomedInv(w')
  {
    var w' := Received(script, w, a);
    forall i | 0 <= i < |w'.threads|
      ensures RunnerInv(w', w'.threads[i]) && DoomedPc(w', w'.threads[i]) && (i > 0 ==> !IsRead(w'.threads[i]))
    {
      if i < |w.threads| && i != 0 {
        assert RunnerInv(w, w.threads[i]) && DoomedPc(w, w.threads[i]);
      }
    }
  }

  lemma ReceiveKeepsCancel(script: Script, w: World, a: Action)
    requires CancelInv(script, w) && !a.Step? && w.threads[0] == ReadIdle
    ensures CancelInv(script, Received(script, w, a))
  {
    if a.SendPrompt? {
      forall r | r in Held(Begin(w.s)) ensures r == w.s.seqNo + 1 || r in Held(w.s) {
      }
    }
  }

  lemma NextKeepsInv(script: Script, w: World, a: Action, w': World)
    requires Inv(script, w) && Next(script, w, a, w')
    ensures Inv(script, w')
  {
    if a.Step? {
      MoveKeepsRoles(script, w, a.tid, a.alt);
      MoveKeepsThreads(script, w, a.tid, a.alt);
      MoveKeepsDoomed(script, w, a.tid, a.alt);
      MoveKeepsCancel(script, w, a.tid, a.alt);
    } else {
      ReceiveKeepsRoles(script, w, a);
      ReceiveKeepsThreads(script, w, a);
      ReceiveKeepsCancel(script, w, a);
    }
  }

  // ---- every run -----------------------------------------------------------

  ghost predicate IsRun(script: Script, run: seq<World>, actions: seq<Action>) {
    && |run| == |actions| + 1 && run[0] == Start
    && forall i :: 0 <= i < |actions| ==> Next(script, run[i], actions[i], run[i + 1])
  }

  lemma StartInv(script: Script)
    ensures Inv(script, Start)
  {
    CountNone(Runner, Start.threads);
    CountNone(Fallback, Start.threads);
    CountNone(Waker, Start.threads);
  }

  lemma {:induction false} RunKeepsInv(script: Script, run: seq<World>, actions: seq<Action>, i: nat)
    requires IsRun(script, run, actions) && i < |run|
    ensures Inv(script, run[i])
  {
    if i == 0 {
      StartInv(script);
    } else {
      RunKeepsInv(script, run, actions, i - 1);
      NextKeepsInv(script, run[i - 1], actions[i - 1], run[i]);
    }
  }

  /** No two goroutines play the role. */
  ghost predicate AtMostOne(role: Role, pcs: seq<Pc>) {
    forall i, j :: 0 <= i < j < |pcs| ==> Plays(role, pcs[i]) == 0 || Plays(role, pcs[j]) == 0
  }

  lemma CountedOnce(role: Role, pcs: seq<Pc>)
    requires Count(role, pcs) <= 1
    ensures AtMostOne(role, pcs)
  {
    forall i, j | 0 <= i < j < |pcs| ensures Plays(role, pcs[i]) == 0 || Plays(role, pcs[j]) == 0 {
      CountTwo(role, pcs, i, j);
    }
  }

  /** In every interleaving: at most one runner, and so at most one running turn; at most
      one fallback turn; and a queue that is not empty has a live runner, a fallback turn
      on, or a goroutine about to kick the runner. */
  lemma OneAtATime(script: Script, run: seq<World>, actions: seq<Action>, n: nat)
    requires IsRun(script, run, actions) && n < |run|
    ensures var w := run[n];
            && AtMostOne(Runner, w.threads) && AtMostOne(Fallback, w.threads)
            && (w.s.queued != [] ==>
                  || (exists i :: 0 <= i < |w.threads| && IsRunner(w.threads[i]))
                  || (exists i :: 0 <= i < |w.threads| && w.threads[i].FallbackTurn?)
                  || (exists i :: 0 <= i < |w.threads| && Waking(w.threads[i])))
  {
    var w := run[n];
    RunKeepsInv(script, run, actions, n);
    CountedOnce(Runner, w.threads);
    CountedOnce(Fallback, w.threads);
    if forall i :: 0 <= i < |w.threads| ==> !IsRunner(w.threads[i]) {
      CountNone(Runner, w.threads);
    }
    if forall i :: 0 <= i < |w.threads| ==> !w.threads[i].FallbackTurn? {
      CountNone(Fallback, w.threads);
    }
    if forall i :: 0 <= i < |w.threads| ==> !Waking(w.threads[i]) {
      CountNone(Waker, w.threads);
    }
  }

  /** A prompt becomes the running one only while no fallback turn holds the session, in
      arrival order; and replies go out in arrival order, one to a prompt that arrived. */
  lemma InArrivalOrder(script: Script, run: seq<World>, actions: seq<Action>, n: nat)
    requires IsRun(script, run, actions) && n < |actions|
    ensures var (w, w') := (run[n], run[n + 1]);
            && (w'.s.running.Some? && w'.s.running != w.s.running ==>
                  w.s.running == None && !w.s.fallbackOn && w'.s.running.value == Picked(w.s) + 1 == Picked(w'.s))
            && (w'.replies == w.replies
                || (|w'.replies| == |w.replies| + 1 && w'.replies[..|w.replies|] == w.replies
                    && w'.replies[|w.replies|].r == |w'.replies| <= w'.s.seqNo))
  {
    RunKeepsInv(script, run, actions, n);
    RunKeepsInv(script, run, actions, n + 1);
    var (w, a) := (run[n], actions[n]);
    if a.Step? {
      StartsNext(script, w, a.tid, a.alt);
      RepliesNext(script, w, a.tid, a.alt);
    }
  }

  lemma StartsNext(script: Script, w: World, tid: nat, alt: bool)
    requires Inv(script, w) && tid < |w.threads| && Enabled(script, w.s, w.threads[tid], alt)
    ensures var w' := Moved(script, w, tid, alt);
            w'.s.running.Some? && w'.s.running != w.s.running ==>
              w.s.running == None && !w.s.fallbackOn && w'.s.running.value == Picked(w.s) + 1 == Picked(w'.s)
  {
    assert RunnerInv(w, w.threads[tid]);
  }

  lemma RepliesNext(script: Script, w: World, tid: nat, alt: bool)
    requires Inv(script, w) && tid < |w.threads| && Enabled(script, w.s, w.threads[tid], alt)
    ensures var w' := Moved(script, w, tid, alt);
            w'.replies == w.replies
            || (|w'.replies| == |w.replies| + 1 && w'.replies[..|w.replies|] == w.replies
                && w'.replies[|w.replies|].r == |w'.replies| <= w'.s.seqNo)
  {
    assert RunnerInv(w, w.threads[tid]);
  }

  /** A prompt cancelled before its turn starts runs no step, and its one reply says
      cancelled. */
  lemma CancelledBeforeStart(script: Script, run: seq<World>, actions: seq<Action>, n: nat, m: nat, r: Prompt)
    requires IsRun(script, run, actions) && n <= m < |run| && r in run[n].doomed
    ensures r !in run[m].ran
    ensures forall i :: 0 <= i < |run[m].replies| && run[m].replies[i].r == r ==> run[m].replies[i].stop == Cancelled
  {
    RunKeepsInv(script, run, actions, m);
    DoomedStays(script, run, actions, n, m, r);
  }

  lemma {:induction false} DoomedStays(script: Script, run: seq<World>, actions: seq<Action>, n: nat, m: nat, r: Prompt)
    requires IsRun(script, run, actions) && n <= m < |run| && r in run[n].doomed
    ensures r in run[m].doomed
  {
    if n < m {
      DoomedStays(script, run, actions, n, m - 1, r);
      assert Next(script, run[m - 1], actions[m - 1], run[m]);
    }
  }

  /** Under long-turn, whenever the read loop is between messages, at most one prompt held
      is not cancelled, and it is the newest. */
  lemma OnlyNewestUncancelled(run: seq<World>, actions: seq<Action>, n: nat)
    requires IsRun(LongTurn, run, actions) && n < |run| && run[n].threads != [] && run[n].threads[0] == ReadIdle
    ensures var s := run[n].s;
            forall r :: (r in s.queued || s.running == Some(r)) && r !in s.cancelled ==> r == s.seqNo
  {
    RunKeepsInv(LongTurn, run, actions, n);
  }

  /** When the read loop has gone through a session/cancel, no prompt held is uncancelled. */
  lemma SessionCancelLeavesNone(script: Script, run: seq<World>, actions: seq<Action>, n: nat)
    requires IsRun(script, run, actions) && n < |run|
    requires run[n].threads != [] && run[n].threads[0] == ReadCancel([], false)
    ensures forall r :: r in run[n].s.queued || run[n].s.running == Some(r) ==> r in run[n].s.cancelled
  {
    RunKeepsInv(script, run, actions, n);
  }

  // ---- every run settles ---------------------------------------------------

  /** Nothing is left to do but wait for a message. */
  ghost predicate Quiescent(w: World) {
    forall i :: 0 <= i < |w.threads| ==> w.threads[i].Gone? || w.threads[i].ReadIdle?
  }

  /** A session at rest has answered every prompt that arrived, each exactly once. */
  lemma QuiescentAnswered(script: Script, run: seq<World>, actions: seq<Action>, n: nat)
    requires IsRun(script, run, actions) && n < |run| && Quiescent(run[n])
    ensures var w := run[n];
            && w.s.queued == [] && w.s.running == None && !w.s.draining && !w.s.fallbackOn
            && |w.replies| == w.s.seqNo
            && (forall i :: 0 <= i < |w.replies| ==> w.replies[i].r == i + 1)
  {
    var w := run[n];
    RunKeepsInv(script, run, actions, n);
    CountNone(Runner, w.threads);
    CountNone(Fallback, w.threads);
    CountNone(Waker, w.threads);
  }

  /** How many more moves a goroutine can make, with those it may start. */
  function Weight(pc: Pc): nat {
    match pc
    case Gone => 0
    case ReadIdle => 0
    case ReadCancel(todo, _) => 4 + |todo|
    case ReadKick => 3
    case RunTop => 2
    case RunPicked(_) => 15
    case RunStep(_, i) => if i == 0 then 14 else 12
    case RunMerge(_, i) => if i == 0 then 13 else 11
    case RunSay(_) => 10
    case RunStrand(_) => 9
    case RunEnd(_, _) => 4
    case RunReply(_, _) => 3
    case Strand => 1
    case StrandStart(_) => 5
    case Interject(_) => 8
    case FallbackTurn => 4
    case FallbackKick => 3
  }

  function Weights(pcs: seq<Pc>): nat {
    if pcs == [] then 0 else Weights(pcs[..|pcs| - 1]) + Weight(pcs[|pcs| - 1])
  }

  /** What is left to do: the goroutines', the queue's and the waiting interjections'. */
  function Left(w: World): nat { Weights(w.threads) + 14 * |w.s.queued| + 6 * |w.s.pending| }

  lemma {:induction false} WeightsConcat(a: seq<Pc>, b: seq<Pc>)
    ensures Weights(a + b) == Weights(a) + Weights(b)
    decreases |b|
  {
    if b == [] {
      assert a + b == a;
    } else {
      assert (a + b)[..|a + b| - 1] == a + b[..|b| - 1];
      WeightsConcat(a, b[..|b| - 1]);
    }
  }

  lemma {:induction false} WeightsUpdate(pcs: seq<Pc>, i: nat, pc: Pc)
    requires i < |pcs|
    ensures Weights(pcs[i := pc]) == Weights(pcs) - Weight(pcs[i]) + Weight(pc)
  {
    if i == |pcs| - 1 {
      assert pcs[i := pc][..i] == pcs[..i];
    } else {
      assert pcs[i := pc][..|pcs| - 1] == pcs[..|pcs| - 1][i := pc];
      WeightsUpdate(pcs[..|pcs| - 1], i, pc);
    }
  }

  lemma AdvanceDescends(script: Script, s: Session, pc: Pc, alt: bool)
    requires Enabled(script, s, pc, alt) && (pc.RunStep? || pc.RunMerge? ==> pc.step <= 1)
    ensures var m := Advance(script, s, pc, alt);
            && |m.spawned| <= 1
            && Weight(m.pc) + (if m.spawned == [] then 0 else Weight(m.spawned[0]))
               + 14 * |m.s.queued| + 6 * |m.s.pending|
               < Weight(pc) + 14 * |s.queued| + 6 * |s.pending|
  {
  }

  /** Every move leaves less to do. */
  lemma MoveDescends(script: Script, w: World, tid: nat, alt: bool)
    requires tid < |w.threads| && Enabled(script, w.s, w.threads[tid], alt)
    requires RunnerInv(w, w.threads[tid])
    ensures Left(Moved(script, w, tid, alt)) < Left(w)
  {
    var m := Advance(script, w.s, w.threads[tid], alt);
    AdvanceDescends(script, w.s, w.threads[tid], alt);
    WeightsUpdate(w.threads, tid, m.pc);
    WeightsConcat(w.threads[tid := m.pc], m.spawned);
    if m.spawned != [] {
      assert m.spawned[..0] == [];
      assert Weights(m.spawned[..0]) == 0;
    }
  }

  lemma StepLowersLeft(script: Script, run: seq<World>, actions: seq<Action>, n: nat)
    requires IsRun(script, run, actions) && n < |actions| && actions[n].Step?
    ensures Left(run[n + 1]) < Left(run[n])
  {
    RunKeepsInv(script, run, actions, n);
    assert Next(script, run[n], actions[n], run[n + 1]);
    MoveDescends(script, run[n], actions[n].tid, actions[n].alt);
  }

  /** Without a new message no run is longer than what was left to do: whatever goroutine
      goes on, every schedule comes to an end. */
  lemma {:induction false} SchedulesEnd(script: Script, run: seq<World>, actions: seq<Action>, n: nat, m: nat)
    requires IsRun(script, run, actions) && n <= m < |run|
    requires forall i :: n <= i < m ==> actions[i].Step?
    ensures Left(run[m]) + (m - n) <= Left(run[n])
  {
    if n < m {
      SchedulesEnd(script, run, actions, n, m - 1);
      StepLowersLeft(script, run, actions, m - 1);
    }
  }

  /** And it can only end at rest: until then some goroutine can go on. */
  lemma NeverStuck(script: Script, run: seq<World>, actions: seq<Action>, n: nat)
    requires IsRun(script, run, actions) && n < |run|
    ensures Quiescent(run[n]) || exists tid, w' :: Next(script, run[n], Step(tid, false), w')
  {
    var w := run[n];
    RunKeepsInv(script, run, actions, n);
    if !Quiescent(w) {
      var i :| 0 <= i < |w.threads| && !w.threads[i].Gone? && !w.threads[i].ReadIdle?;
      assert Next(script, w, Step(i, false), Moved(script, w, i, false));
    }
  }
}
