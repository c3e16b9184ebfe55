/** cmd/craze-fake-agent/queue.go: the state the turn runner keeps under the server's
    mutex. Every method is one section of code that holds the mutex (or one use of a
    prompt's sync.Once), so it is one atomic step. */
module TurnSections {
  import opened Common

  /** A prompt, by its 1-based arrival number. */
  type Prompt = nat

  datatype Script = LongTurn | GrokLongTurn | GrokFallback

  /** `cancelled`: the prompts whose cancel channel is closed. `once`: those whose reply
      was begun. `pending`, `merged`: interjections waiting, and in the running turn. */
  datatype Session = Session(
    seqNo: nat, queued: seq<Prompt>, running: Option<Prompt>, draining: bool,
    cancelled: set<Prompt>, once: set<Prompt>,
    pending: seq<string>, merged: seq<string>, fallbackOn: bool, fallbackSeq: nat)

  const NewSession: Session := Session(0, [], None, false, {}, {}, [], [], false, 0)

  /** Every prompt held: queued, and the running one. */
  function Held(s: Session): seq<Prompt> { s.queued + (if s.running.Some? then [s.running.value] else []) }

  function Begin(s: Session): Session { s.(seqNo := s.seqNo + 1, queued := s.queued + [s.seqNo + 1]) }

  function CancelOne(s: Session, r: Prompt): Session { s.(cancelled := s.cancelled + {r}) }

  /** The runner takes the next prompt, or stops. */
  function TakeNext(s: Session): Session {
    if s.queued == [] || s.fallbackOn then s.(draining := false)
    else s.(queued := s.queued[1..], running := Some(s.queued[0]))
  }

  function EndSection(s: Session, r: Prompt): Session {
    s.(running := if s.running == Some(r) then None else s.running, merged := [], once := s.once + {r})
  }

  /** The runner is going, from now on. */
  function Drain(s: Session): Session { s.(draining := true) }

  function AddPending(s: Session, text: string): Session { s.(pending := s.pending + [text]) }

  /** A safe point: what is pending joins the running turn, except under the fallback script. */
  function Merge(script: Script, s: Session): Session {
    if script == GrokFallback then s else s.(merged := s.merged + s.pending, pending := [])
  }

  function ClearMerged(s: Session): Session { s.(merged := []) }

  predicate Stranded(s: Session) { s.running.None? && !s.draining && s.pending != [] && !s.fallbackOn }

  function TakeStranded(s: Session): Session { if Stranded(s) then s.(pending := []) else s }

  function StartFallback(s: Session): Session {
    if s.fallbackOn then s else s.(fallbackOn := true, fallbackSeq := s.fallbackSeq + 1)
  }

  function StopFallback(s: Session): Session { s.(fallbackOn := false) }

  class Server {
    const script: Script
    var seqNo: nat
    var queued: seq<Prompt>
    var running: Option<Prompt>
    var draining: bool
    var cancelled: set<Prompt>
    var once: set<Prompt>
    var pending: seq<string>
    var merged: seq<string>
    var fallbackOn: bool
    var fallbackSeq: nat

    ghost function State(): Session
      reads this
    {
      Session(seqNo, queued, running, draining, cancelled, once, pending, merged, fallbackOn, fallbackSeq)
    }

    constructor (script: Script)
      ensures this.script == script && State() == NewSession
    {
      this.script := script;
      seqNo, queued, running, draining := 0, [], None, false;
      cancelled, once, pending, merged, fallbackOn, fallbackSeq := {}, {}, [], [], false, 0;
    }

    /** `beginPrompt`: registers a prompt in arrival order; everything accepted before it is
        overtaken. */
    method BeginPrompt() returns (r: Prompt, overtaken: seq<Prompt>)
      modifies this
      ensures State() == Begin(old(State())) && r == seqNo && overtaken == Held(old(State()))
    {
      seqNo := seqNo + 1;
      r := seqNo;
      overtaken := queued;
      if running.Some? {
        overtaken := overtaken + [running.value];
      }
      queued := queued + [r];
    }

    /** `cancelReq`: closes a cancel channel once. */
    method CancelReq(r: Prompt)
      modifies this
      ensures State() == CancelOne(old(State()), r)
    {
      if r !in cancelled {
        cancelled := cancelled + {r};
      }
    }

    /** `cancelAll`, its section: what the session holds. */
    method HeldPrompts() returns (reqs: seq<Prompt>)
      ensures reqs == Held(State())
    {
      reqs := queued;
      if running.Some? {
        reqs := reqs + [running.value];
      }
    }

    /** `runQueue`, its section. */
    method Take() returns (r: Option<Prompt>)
      modifies this
      ensures State() == TakeNext(old(State()))
      ensures r == if old(State()).queued == [] || old(State()).fallbackOn then None else Some(old(State()).queued[0])
    {
      if |queued| == 0 || fallbackOn {
        draining := false;
        return None;
      }
      r := Some(queued[0]);
      queued := queued[1..];
      running := r;
    }

    /** `kickQueue`: whether the caller must start the runner. */
    method Kick() returns (start: bool)
      modifies this
      ensures State() == Drain(old(State())) && start == !old(State()).draining
    {
      if draining {
        return false;
      }
      draining := true;
      return true;
    }

    /** `endTurn`, under the prompt's Once: whether this call is the one that replies. */
    method EndTurn(r: Prompt) returns (reply: bool)
      modifies this
      ensures reply == (r !in old(State()).once)
      ensures State() == if reply then EndSection(old(State()), r) else old(State())
    {
      if r in once {
        return false;
      }
      once := once + {r};
      if running == Some(r) {
        running := None;
      }
      merged := [];
      return true;
    }

    method MergeInterjections()
      modifies this
      ensures State() == Merge(script, old(State()))
    {
      if script == GrokFallback {
        return;
      }
      merged := merged + pending;
      pending := [];
    }

    /** `takeMerged`: the steps with what was merged between them. */
    method TakeMerged() returns (out: seq<string>)
      modifies this
      ensures State() == ClearMerged(old(State())) && out == ["step1"] + old(State()).merged + ["step2"]
    {
      out := ["step1"];
      out := out + merged;
      out := out + ["step2"];
      merged := [];
    }

    method AddInterjection(text: string)
      modifies this
      ensures State() == AddPending(old(State()), text)
    {
      pending := pending + [text];
    }

    /** `runFallbackIfStranded`, its section: whether an interjection is stranded, which is
        then taken. */
    method TakeStrandedText() returns (stranded: bool, texts: seq<string>)
      modifies this
      ensures stranded == Stranded(old(State())) && State() == TakeStranded(old(State()))
      ensures texts == if stranded then old(State()).pending else []
    {
      if running.Some? || draining || |pending| == 0 || fallbackOn {
        return false, [];
      }
      texts := pending;
      pending := [];
      return true, texts;
    }

    /** `startFallback`, its section: whether the caller must run the fallback turn. */
    method BeginFallback() returns (start: bool)
      modifies this
      ensures start == !old(State()).fallbackOn && State() == StartFallback(old(State()))
    {
      if fallbackOn {
        return false;
      }
      fallbackSeq := fallbackSeq + 1;
      fallbackOn := true;
      return true;
    }

    /** `runFallback`, its section. */
    method EndFallback()
      modifies this
      ensures State() == StopFallback(old(State()))
    {
      fallbackOn := false;
    }
  }
}
