/** The budget protocol: any number of crazeeval processes, one log, one cap. A request is
    reserved at an upper bound before it is forwarded and settled at what it cost
    (eval/crazeeval/proxy.py `_handle_route` and `_finish`, eval/crazeeval/ledger.py). */
module Budget {
  import opened Common
  import P = Pricing
  import opened LedgerLog
  import opened Ledgers

  /** What a forwarded request was reserved for. */
  datatype Terms = Terms(price: P.Price, bodyBytes: nat, maxTokens: nat)

  datatype Grant = Grant(res: Reservation, terms: Terms)

  /** How much of the log a process has read, and what it made of it. */
  datatype Reader = Reader(offset: nat, view: View)

  /** `admitted`: the reservations `admit` returned ok for. `used`: every id ever drawn.
      `settling`: the reservations whose exchange ended. */
  datatype World = World(
    log: Log, readers: map<nat, Reader>,
    admitted: map<Id, Grant>, used: set<Id>, settling: set<Id>)

  datatype Action =
    | Open(pid: nat)
    | Exit(pid: nat)
    | Read(pid: nat)
    | Admit(pid: nat, runId: string, terms: Terms, id: Id, width: nat)
    | AdmitCrash(pid: nat, runId: string, terms: Terms, id: Id, width: nat, written: nat)
    | Finish(pid: nat, id: Id, usage: Option<P.Usage>, width: nat)
    | FinishCrash(pid: nat, id: Id, usage: Option<P.Usage>, width: nat, written: nat)

  const Start: World := World([], map[], map[], {}, {})

  /** One incremental `_sync`: the lines after the offset, replayed onto the view. */
  function Resync(r: Reader, log: Log): Reader
    requires r.offset <= |log|
  {
    var data := log[r.offset..];
    var end := CompleteEnd(data);
    Reader(r.offset + end, Replay(r.view, Lines(data[..end])))
  }

  function Amount(t: Terms): real { P.Reservation(t.price, t.bodyBytes, t.maxTokens) }

  function NewReservation(runId: string, t: Terms, id: Id): Reservation {
    Reservation(id, runId, Amount(t), P.ListReservation(t.price, t.bodyBytes, t.maxTokens))
  }

  /** The providers' documented billing: no more prompt tokens than body bytes, no more
      output than the limit reserved for. */
  predicate BilledAsDocumented(t: Terms, usage: Option<P.Usage>) {
    usage.Some? ==> usage.value.input <= t.bodyBytes && usage.value.output <= t.maxTokens
  }

  /** The line `_finish` settles with. */
  function FinishLine(g: Grant, usage: Option<P.Usage>): Record {
    match usage
    case None => SettleLine(g.res, Charged(g.res.amount, None), None)
    case Some(u) => SettleLine(g.res, Charged(g.res.amount, Some(P.Cost(g.terms.price, u, false))),
                               Some(P.Cost(g.terms.price, u, true)))
  }

  predicate MayAdmit(cap: real, runCap: real, w: World, pid: nat, runId: string, t: Terms, id: Id, width: nat) {
    && pid in w.readers && w.readers[pid].offset <= |w.log|
    && id != "" && id !in w.used && width > 0 && P.NonNegative(t.price)
    && Decide(Resync(w.readers[pid], w.log).view, cap, runCap, runId, Amount(t)).None?
  }

  predicate MayFinish(w: World, pid: nat, id: Id, usage: Option<P.Usage>, width: nat) {
    && pid in w.readers && w.readers[pid].offset <= |w.log|
    && id in w.admitted && id !in w.settling && width > 0
    && BilledAsDocumented(w.admitted[id].terms, usage)
  }

  function Drop(readers: map<nat, Reader>, pid: nat): map<nat, Reader> { readers - {pid} }

  /** One atomic step under the lock. A refused `admit` only reads. A crash leaves any
      prefix of what the append would have written. */
  ghost predicate Next(cap: real, runCap: real, w: World, a: Action, w': World) {
    match a
    case Open(pid) =>
      pid !in w.readers && w' == w.(readers := w.readers[pid := Resync(Reader(0, EmptyView), w.log)])
    case Exit(pid) =>
      w' == w.(readers := Drop(w.readers, pid))
    case Read(pid) =>
      pid in w.readers && w.readers[pid].offset <= |w.log|
      && w' == w.(readers := w.readers[pid := Resync(w.readers[pid], w.log)])
    case Admit(pid, runId, t, id, width) =>
      MayAdmit(cap, runCap, w, pid, runId, t, id, width)
      && (var res := NewReservation(runId, t, id);
          var log' := w.log + Appended(w.log, ReserveLine(res), width);
          w' == World(log', w.readers[pid := Resync(w.readers[pid], log')],
                      w.admitted[id := Grant(res, t)], w.used + {id}, w.settling))
    case AdmitCrash(pid, runId, t, id, width, written) =>
      MayAdmit(cap, runCap, w, pid, runId, t, id, width)
      && (var text := Appended(w.log, ReserveLine(NewReservation(runId, t, id)), width);
          written <= |text|
          && w' == World(w.log + text[..written], Drop(w.readers, pid), w.admitted, w.used + {id}, w.settling))
    case Finish(pid, id, usage, width) =>
      MayFinish(w, pid, id, usage, width)
      && (var log' := w.log + Appended(w.log, FinishLine(w.admitted[id], usage), width);
          w' == World(log', w.readers[pid := Resync(w.readers[pid], log')], w.admitted, w.used, w.settling + {id}))
    case FinishCrash(pid, id, usage, width, written) =>
      MayFinish(w, pid, id, usage, width)
      && (var text := Appended(w.log, FinishLine(w.admitted[id], usage), width);
          written <= |text|
          && w' == World(w.log + text[..written], Drop(w.readers, pid), w.admitted, w.used, w.settling + {id}))
  }

  // ---- the invariant: readers ----------------------------------------------

  ghost predicate ReadersInv(w: World) {
    forall pid :: pid in w.readers ==> ReadsLog(w.readers[pid], w.log)
  }

  /** What a process holds is the fold of the whole lines it has read. */
  ghost predicate ReadsLog(r: Reader, log: Log) {
    r.offset <= |log| && LineBreak(log[..r.offset]) && r.view == ViewOf(log[..r.offset])
  }

  lemma ReadsLogGrows(r: Reader, log: Log, more: Log)
    requires ReadsLog(r, log)
    ensures ReadsLog(r, log + more)
  {
    assert (log + more)[..r.offset] == log[..r.offset];
  }

  /** After a sync, however appends and syncs interleaved before it, a process's view is
      the fold of all the newline-terminated lines of the log. */
  lemma ResyncIsFold(r: Reader, log: Log)
    requires ReadsLog(r, log)
    ensures Resync(r, log) == Reader(CompleteEnd(log), ViewOf(log))
    ensures ReadsLog(Resync(r, log), log)
  {
    assert log[..r.offset] + log[r.offset..] == log;
    ReadOn(log[..r.offset], log[r.offset..]);
    CompletePart(log, CompleteEnd(log));
  }

  // ---- the invariant: the books --------------------------------------------

  /** The accounting behind a log: its view, the whole record its torn end holds if it
      holds one, and what was granted. */
  datatype Books = Books(view: View, pending: Option<Record>,
                         admitted: map<Id, Grant>, used: set<Id>, settling: set<Id>)

  function BooksOf(w: World): Books {
    Books(ViewOf(w.log), Parse(Tail(w.log)), w.admitted, w.used, w.settling)
  }

  predicate GoodGrant(id: Id, g: Grant) {
    g.res.id == id != "" && g.res.amount == Amount(g.terms) && g.res.amount >= 0.0 && P.NonNegative(g.terms.price)
  }

  /** A settle line of a granted reservation charges between 0 and what was reserved. */
  predicate GoodSettle(g: Grant, r: Record) {
    r.Settle? && r.id == g.res.id && r.runId == g.res.runId && 0.0 <= r.charged <= g.res.amount
  }

  predicate GoodEntry(b: Books, id: Id, e: Entry) {
    && id in b.used
    && e.reserve.Some? && e.reserve.value.Reserve? && e.reserve.value.amount >= 0.0
    && (id in b.admitted ==> e.reserve.value == ReserveLine(b.admitted[id].res))
    && (e.settle.Some? ==> id in b.admitted && id in b.settling && GoodSettle(b.admitted[id], e.settle.value))
  }

  /** A record that the next append will make visible: a reservation never granted, or the
      one settlement of a granted one. */
  predicate GoodPending(b: Books, r: Record) {
    match r
    case Reserve(id, _, amount, _) =>
      id != "" && id in b.used && id !in b.admitted && id !in b.view.entries && amount >= 0.0
    case Settle(id, _, _, _, _) =>
      id in b.admitted && id in b.settling && GoodSettle(b.admitted[id], r) && EntryAt(b.view.entries, id).settle.None?
  }

  ghost predicate Consistent(b: Books) {
    && WellFormed(b.view)
    && (forall id :: id in b.view.entries ==> GoodEntry(b, id, b.view.entries[id]))
    && (forall id :: id in b.admitted ==> GoodGrant(id, b.admitted[id]) && id in b.used && id in b.view.entries)
    && b.settling <= b.admitted.Keys
    && (b.pending.Some? ==> GoodPending(b, b.pending.value))
    && (forall id :: id in b.admitted && id !in b.settling ==> EntryAt(b.view.entries, id).settle.None?)
  }

  /** The ids granted to one run. */
  function RunIds(b: Books, run: string): set<Id> {
    set id | id in b.admitted && b.admitted[id].res.runId == run
  }

  /** The charges of everything granted, as the log has them. */
  function Granted(b: Books): real { Sum(b.view.order, b.view.entries, Among(b.admitted.Keys)) }

  /** One run's charges: its settled charges and its open reservations. */
  function Exposure(b: Books, run: string): real { Sum(b.view.order, b.view.entries, Among(RunIds(b, run))) }

  function OpenGrants(b: Books, run: string): nat { CountOpen(b.view.order, b.view.entries, Among(RunIds(b, run))) }

  /** `top` is at least every reservation granted to the run, and it was granted one. */
  predicate Tops(b: Books, run: string, top: real) {
    RunIds(b, run) != {}
    && forall id :: id in b.admitted && b.admitted[id].res.runId == run ==> b.admitted[id].res.amount <= top
  }

  ghost predicate WithinCaps(cap: real, runCap: real, b: Books) {
    && Granted(b) <= cap
    && (forall run :: OpenGrants(b, run) <= MAX_OPEN_RESERVATIONS_PER_RUN)
    && (forall run, top :: Tops(b, run, top) ==> Exposure(b, run) < runCap + 4.0 * top)
  }

  // ---- sums as the books change --------------------------------------------

  lemma {:induction false} SumExtend(order: seq<Id>, es: map<Id, Entry>, id: Id, e: Entry, f: Filter)
    requires id !in order
    ensures Sum(order + [id], es[id := e], f) == Sum(order, es, f) + Share(f, id, e)
    ensures CountOpen(order + [id], es[id := e], f) == CountOpen(order, es, f) + (if OpenIn(f, id, e) then 1 else 0)
  {
    var es' := es[id := e];
    assert (order + [id])[..|order|] == order;
    SumLe(order, es, f, es', f);
    SumLe(order, es', f, es, f);
    CountLe(order, es, f, es', f);
    CountLe(order, es', f, es, f);
  }

  lemma SameAmong(order: seq<Id>, es: map<Id, Entry>, ids: set<Id>, ids': set<Id>)
    requires forall id :: id in order ==> (id in ids <==> id in ids')
    ensures Sum(order, es, Among(ids)) == Sum(order, es, Among(ids'))
    ensures CountOpen(order, es, Among(ids)) == CountOpen(order, es, Among(ids'))
  {
    SumLe(order, es, Among(ids), es, Among(ids'));
    SumLe(order, es, Among(ids'), es, Among(ids));
    CountLe(order, es, Among(ids), es, Among(ids'));
    CountLe(order, es, Among(ids'), es, Among(ids));
  }

  /** Applying the pending record changes no granted sum upward. */
  lemma ApplyPending(b: Books, ids: set<Id>)
    requires Consistent(b) && b.pending.Some? && ids <= b.admitted.Keys
    ensures var v := ApplyRecord(b.view, b.pending.value);
            && Sum(v.order, v.entries, Among(ids)) <= Sum(b.view.order, b.view.entries, Among(ids))
            && CountOpen(v.order, v.entries, Among(ids)) <= CountOpen(b.view.order, b.view.entries, Among(ids))
  {
    var r := b.pending.value;
    var v := ApplyRecord(b.view, r);
    if r.Reserve? {
      SumExtend(b.view.order, b.view.entries, r.id, v.entries[r.id], Among(ids));
    } else {
      var e := b.view.entries[r.id];
      assert GoodEntry(b, r.id, e) && v.entries == b.view.entries[r.id := v.entries[r.id]];
      SettleLowers(b.view.order, b.view.entries, r.id, v.entries[r.id], Among(ids));
    }
  }

  /** An entry settled for no more than it was open at lowers every sum. */
  lemma SettleLowers(order: seq<Id>, es: map<Id, Entry>, id: Id, e: Entry, f: Filter)
    requires id in es && f.Among? && e.settle.Some? && Charge(e) <= Charge(es[id])
    ensures Sum(order, es[id := e], f) <= Sum(order, es, f)
    ensures CountOpen(order, es[id := e], f) <= CountOpen(order, es, f)
  {
    SumLe(order, es[id := e], f, es, f);
    CountLe(order, es[id := e], f, es, f);
  }

  /** The torn end closed: its line applied, nothing pending. */
  function Closed(b: Books, v: View): Books { b.(view := v, pending := None) }

  function AfterTail(b: Books): View {
    if b.pending.Some? then ApplyRecord(b.view, b.pending.value) else b.view
  }

  predicate SameEntries(v: View, v': View) { v.order == v'.order && v.entries == v'.entries }

  lemma CloseKeepsConsistent(b: Books, v: View)
    requires Consistent(b) && SameEntries(v, AfterTail(b))
    ensures Consistent(Closed(b, v))
  {
    if b.pending.Some? {
      ApplyKeepsWellFormed(b.view, b.pending.value);
    }
    forall id | id in v.entries ensures GoodEntry(b, id, v.entries[id]) {
      ClosedEntry(b, id);
    }
    forall id | id in b.admitted
      ensures id in v.entries && (id !in b.settling ==> EntryAt(v.entries, id).settle.None?)
    {
      ClosedGrant(b, id);
    }
  }

  /** What the torn line leaves of an entry once it is applied. */
  lemma ClosedEntry(b: Books, id: Id)
    requires Consistent(b) && id in AfterTail(b).entries
    ensures GoodEntry(b, id, AfterTail(b).entries[id])
  {
    if b.pending.Some? {
      assert GoodPending(b, b.pending.value);
    }
  }

  lemma ClosedGrant(b: Books, id: Id)
    requires Consistent(b) && id in b.admitted
    ensures var es := AfterTail(b).entries;
            id in es && (id !in b.settling ==> EntryAt(es, id).settle.None?)
  {
    if b.pending.Some? {
      assert GoodPending(b, b.pending.value);
    }
  }

  lemma CloseKeepsCaps(cap: real, runCap: real, b: Books, v: View)
    requires Consistent(b) && WithinCaps(cap, runCap, b) && SameEntries(v, AfterTail(b))
    ensures WithinCaps(cap, runCap, Closed(b, v))
  {
    var c := Closed(b, v);
    forall run
      ensures RunIds(c, run) == RunIds(b, run) && Exposure(c, run) <= Exposure(b, run)
      ensures OpenGrants(c, run) <= OpenGrants(b, run)
    {
      assert RunIds(c, run) == RunIds(b, run);
      if b.pending.Some? {
        ApplyPending(b, RunIds(b, run));
      }
    }
    if b.pending.Some? {
      ApplyPending(b, b.admitted.Keys);
    }
    forall run, top | Tops(c, run, top) ensures Exposure(c, run) < runCap + 4.0 * top {
      assert Tops(b, run, top);
    }
  }

  // ---- what each step does to the books ------------------------------------

  /** A record drawn but not yet visible: a reservation whose `admit` never returned, or a
      settlement. */
  lemma DrawPending(cap: real, runCap: real, b: Books, pending: Option<Record>, used: set<Id>, settling: set<Id>)
    requires Consistent(b) && WithinCaps(cap, runCap, b) && b.pending.None?
    requires b.used <= used && b.settling <= settling <= b.admitted.Keys
    ensures var b' := b.(pending := pending, used := used, settling := settling);
            (pending.Some? ==> GoodPending(b', pending.value)) ==> Consistent(b') && WithinCaps(cap, runCap, b')
  {
    var b' := b.(pending := pending, used := used, settling := settling);
    forall run ensures OpenGrants(b', run) == OpenGrants(b, run) && Exposure(b', run) == Exposure(b, run) {
      assert RunIds(b', run) == RunIds(b, run);
    }
    forall run, top | Tops(b', run, top) ensures Exposure(b', run) < runCap + 4.0 * top {
      assert RunIds(b', run) == RunIds(b, run);
      assert Tops(b, run, top);
    }
  }

  function AfterGrant(b: Books, g: Grant): Books {
    Books(ApplyRecord(b.view, ReserveLine(g.res)), b.pending,
          b.admitted[g.res.id := g], b.used + {g.res.id}, b.settling)
  }

  lemma GrantKeepsConsistent(b: Books, g: Grant)
    requires Consistent(b) && b.pending.None? && GoodGrant(g.res.id, g) && g.res.id !in b.used
    ensures Consistent(AfterGrant(b, g))
  {
    ApplyKeepsWellFormed(b.view, ReserveLine(g.res));
    var b' := AfterGrant(b, g);
    assert g.res.id !in b.view.entries;
    forall id | id in b'.view.entries ensures GoodEntry(b', id, b'.view.entries[id]) {
      if id != g.res.id {
        assert GoodEntry(b, id, b.view.entries[id]);
      }
    }
    forall id | id in b'.admitted
      ensures GoodGrant(id, b'.admitted[id]) && id in b'.used && id in b'.view.entries
      ensures id !in b'.settling ==> EntryAt(b'.view.entries, id).settle.None?
    {
      if id != g.res.id {
        assert GoodGrant(id, b.admitted[id]);
        assert EntryAt(b'.view.entries, id) == EntryAt(b.view.entries, id);
      }
    }
  }

  /** What a new granted entry adds to the sums over a set of ids it joins or not. */
  lemma GrantSum(b: Books, g: Grant, ids: set<Id>, joins: bool)
    requires Consistent(b) && GoodGrant(g.res.id, g) && g.res.id !in b.used && g.res.id !in ids
    ensures var (v, v') := (b.view, AfterGrant(b, g).view);
            var ids' := if joins then ids + {g.res.id} else ids;
            && Sum(v'.order, v'.entries, Among(ids'))
               == Sum(v.order, v.entries, Among(ids)) + (if joins then g.res.amount else 0.0)
            && CountOpen(v'.order, v'.entries, Among(ids'))
               == CountOpen(v.order, v.entries, Among(ids)) + (if joins then 1 else 0)
  {
    var id := g.res.id;
    assert id !in b.view.entries && id !in b.view.order;
    JoinSum(b.view.order, b.view.entries, id, Entry(Some(ReserveLine(g.res)), None), ids, joins);
  }

  lemma JoinSum(order: seq<Id>, es: map<Id, Entry>, id: Id, e: Entry, ids: set<Id>, joins: bool)
    requires id !in order && id !in ids && e.settle.None?
    ensures var f := Among(if joins then ids + {id} else ids);
            && Sum(order + [id], es[id := e], f) == Sum(order, es, Among(ids)) + (if joins then Charge(e) else 0.0)
            && CountOpen(order + [id], es[id := e], f) == CountOpen(order, es, Among(ids)) + (if joins then 1 else 0)
  {
    var ids' := if joins then ids + {id} else ids;
    SumExtend(order, es, id, e, Among(ids'));
    SameAmong(order, es, ids, ids');
  }

  lemma GrantSums(b: Books, g: Grant, run: string)
    requires Consistent(b) && GoodGrant(g.res.id, g) && g.res.id !in b.used
    ensures var b' := AfterGrant(b, g);
            && Granted(b') == Granted(b) + g.res.amount
            && Exposure(b', run) == Exposure(b, run) + (if run == g.res.runId then g.res.amount else 0.0)
            && OpenGrants(b', run) == OpenGrants(b, run) + (if run == g.res.runId then 1 else 0)
  {
    GrantedAfter(b, g);
    RunIdsAfter(b, g, run);
    GrantSum(b, g, RunIds(b, run), run == g.res.runId);
  }

  lemma GrantedAfter(b: Books, g: Grant)
    requires Consistent(b) && GoodGrant(g.res.id, g) && g.res.id !in b.used
    ensures Granted(AfterGrant(b, g)) == Granted(b) + g.res.amount
  {
    GrantSum(b, g, b.admitted.Keys, true);
    assert AfterGrant(b, g).admitted.Keys == b.admitted.Keys + {g.res.id};
  }

  lemma RunIdsAfter(b: Books, g: Grant, run: string)
    requires g.res.id !in b.admitted
    ensures RunIds(AfterGrant(b, g), run) == if run == g.res.runId then RunIds(b, run) + {g.res.id} else RunIds(b, run)
  {
  }

  /** The granted part of a view is at most all of it: nothing charges less than 0. */
  lemma GrantedWithinTotal(b: Books)
    requires Consistent(b)
    ensures Granted(b) <= Sum(b.view.order, b.view.entries, All)
  {
    forall i | 0 <= i < |b.view.order|
      ensures Share(Among(b.admitted.Keys), b.view.order[i], EntryAt(b.view.entries, b.view.order[i]))
           <= Share(All, b.view.order[i], EntryAt(b.view.entries, b.view.order[i]))
    {
      assert GoodEntry(b, b.view.order[i], b.view.entries[b.view.order[i]]);
    }
    SumLe(b.view.order, b.view.entries, Among(b.admitted.Keys), b.view.entries, All);
  }

  /** A run's exposure is at most what it settled and `top` for each open entry it has. */
  lemma ExposureBySettled(b: Books, run: string, top: real)
    requires Consistent(b) && 0.0 <= top
    requires forall id :: id in RunIds(b, run) ==> b.admitted[id].res.amount <= top
    ensures Exposure(b, run) <= Sum(b.view.order, b.view.entries, SettledOf(run))
                                + Times(CountOpen(b.view.order, b.view.entries, OfRun(run)), top)
    ensures OpenGrants(b, run) <= CountOpen(b.view.order, b.view.entries, OfRun(run))
  {
    var (order, es, ids) := (b.view.order, b.view.entries, RunIds(b, run));
    forall i | 0 <= i < |order|
      ensures var (id, e) := (order[i], EntryAt(es, order[i]));
              && Share(Among(ids), id, e)
                 <= Share(SettledOf(run), id, e) + (if OpenIn(OfRun(run), id, e) then top else 0.0)
              && (OpenIn(Among(ids), id, e) ==> OpenIn(OfRun(run), id, e))
    {
      assert GoodEntry(b, order[i], es[order[i]]);
      if order[i] in ids {
        assert GoodGrant(order[i], b.admitted[order[i]]);
      }
    }
    SumBySettled(order, es, Among(ids), SettledOf(run), OfRun(run), top);
    CountLe(order, es, Among(ids), es, OfRun(run));
  }

  lemma TimesUpToThree(n: nat, top: real)
    requires n <= 3 && 0.0 <= top
    ensures Times(n, top) <= 3.0 * top
  {
    assert Times(0, top) == 0.0;
    assert n >= 1 ==> Times(1, top) == top;
    assert n >= 2 ==> Times(2, top) == top + top;
    assert n >= 3 ==> Times(3, top) == Times(2, top) + top;
  }

  /** Granting, with the decision made on `b` and the torn end closed meanwhile. */
  lemma GrantKeepsCaps(cap: real, runCap: real, b: Books, v: View, g: Grant)
    requires Consistent(b) && WithinCaps(cap, runCap, b) && SameEntries(v, AfterTail(b))
    requires GoodGrant(g.res.id, g) && g.res.id !in b.used
    requires Decide(b.view, cap, runCap, g.res.runId, g.res.amount).None?
    ensures WithinCaps(cap, runCap, AfterGrant(Closed(b, v), g))
  {
    var c := Closed(b, v);
    var b' := AfterGrant(c, g);
    CloseKeepsConsistent(b, v);
    CloseKeepsCaps(cap, runCap, b, v);
    GrantedWithinTotal(b);
    CloseLowers(b, v, g.res.runId);
    GrantSums(c, g, g.res.runId);
    forall run ensures OpenGrants(b', run) <= MAX_OPEN_RESERVATIONS_PER_RUN {
      GrantKeepsOpen(runCap, b, v, g, run);
    }
    forall run, top | Tops(b', run, top) ensures Exposure(b', run) < runCap + 4.0 * top {
      if run == g.res.runId {
        GrantKeepsOwnExposure(runCap, b, v, g, top);
      } else {
        GrantKeepsOtherExposure(runCap, c, g, run, top);
      }
    }
  }

  lemma GrantKeepsOpen(runCap: real, b: Books, v: View, g: Grant, run: string)
    requires Consistent(b) && SameEntries(v, AfterTail(b)) && Consistent(Closed(b, v))
    requires OpenGrants(Closed(b, v), run) <= MAX_OPEN_RESERVATIONS_PER_RUN
    requires GoodGrant(g.res.id, g) && g.res.id !in b.used
    requires CountOpen(b.view.order, b.view.entries, OfRun(g.res.runId)) < MAX_OPEN_RESERVATIONS_PER_RUN
    ensures OpenGrants(AfterGrant(Closed(b, v), g), run) <= MAX_OPEN_RESERVATIONS_PER_RUN
  {
    GrantSums(Closed(b, v), g, run);
    if run == g.res.runId {
      CloseLowers(b, v, run);
      ExposureBySettled(b, run, RunTop(b, run, 0.0));
    }
  }

  lemma GrantKeepsOwnExposure(runCap: real, b: Books, v: View, g: Grant, top: real)
    requires Consistent(b) && SameEntries(v, AfterTail(b)) && Consistent(Closed(b, v))
    requires GoodGrant(g.res.id, g) && g.res.id !in b.used
    requires Sum(b.view.order, b.view.entries, SettledOf(g.res.runId)) < runCap
    requires CountOpen(b.view.order, b.view.entries, OfRun(g.res.runId)) < MAX_OPEN_RESERVATIONS_PER_RUN
    requires Tops(AfterGrant(Closed(b, v), g), g.res.runId, top)
    ensures Exposure(AfterGrant(Closed(b, v), g), g.res.runId) < runCap + 4.0 * top
  {
    var run := g.res.runId;
    var b' := AfterGrant(Closed(b, v), g);
    assert b'.admitted[g.res.id] == g && g.res.amount <= top;
    forall id | id in RunIds(b, run) ensures b.admitted[id].res.amount <= top {
      assert b'.admitted[id] == b.admitted[id];
    }
    ExposureBySettled(b, run, top);
    TimesUpToThree(CountOpen(b.view.order, b.view.entries, OfRun(run)), top);
    CloseLowers(b, v, run);
    GrantSums(Closed(b, v), g, run);
  }

  lemma GrantKeepsOtherExposure(runCap: real, c: Books, g: Grant, run: string, top: real)
    requires Consistent(c) && GoodGrant(g.res.id, g) && g.res.id !in c.used && run != g.res.runId
    requires Tops(AfterGrant(c, g), run, top)
    requires Tops(c, run, top) ==> Exposure(c, run) < runCap + 4.0 * top
    ensures Exposure(AfterGrant(c, g), run) < runCap + 4.0 * top
  {
    var b' := AfterGrant(c, g);
    GrantSums(c, g, run);
    assert RunIds(b', run) == RunIds(c, run);
    forall id | id in c.admitted && c.admitted[id].res.runId == run ensures c.admitted[id].res.amount <= top {
      assert b'.admitted[id] == c.admitted[id];
    }
  }

  lemma CloseLowers(b: Books, v: View, run: string)
    requires Consistent(b) && SameEntries(v, AfterTail(b))
    ensures var c := Closed(b, v);
            && Granted(c) <= Granted(b) && Exposure(c, run) <= Exposure(b, run)
            && OpenGrants(c, run) <= OpenGrants(b, run)
  {
    assert RunIds(Closed(b, v), run) == RunIds(b, run);
    if b.pending.Some? {
      ApplyPending(b, b.admitted.Keys);
      ApplyPending(b, RunIds(b, run));
    }
  }

  /** Some bound on a run's granted reservations. */
  ghost function RunTop(b: Books, run: string, least: real): (top: real)
    ensures top >= least
    ensures forall id :: id in RunIds(b, run) ==> b.admitted[id].res.amount <= top
  {
    TopOf(b, b.admitted.Keys, least)
  }

  ghost function TopOf(b: Books, ids: set<Id>, least: real): (top: real)
    requires ids <= b.admitted.Keys
    ensures top >= least && forall id :: id in ids ==> b.admitted[id].res.amount <= top
  {
    if ids == {} then least else
      var id :| id in ids;
      MaxReal(TopOf(b, ids - {id}, least), b.admitted[id].res.amount)
  }

  // ---- every step keeps the invariant --------------------------------------

  ghost predicate Inv(cap: real, runCap: real, w: World) {
    ReadersInv(w) && Consistent(BooksOf(w)) && WithinCaps(cap, runCap, BooksOf(w))
  }

  lemma StartInv(cap: real, runCap: real)
    requires 0.0 <= cap
    ensures Inv(cap, runCap, Start)
  {
    assert Tail([]) == [];
  }

  /** What a finished exchange settles is at most what was reserved for it. */
  lemma SettlesWithinReservation(id: Id, g: Grant, usage: Option<P.Usage>)
    requires GoodGrant(id, g) && BilledAsDocumented(g.terms, usage)
    ensures GoodSettle(g, FinishLine(g, usage))
  {
    if usage.Some? {
      P.CostWithinEstimate(g.terms.price, usage.value, g.terms.bodyBytes, g.terms.maxTokens, false);
    }
  }

  lemma ReservationNonNegative(t: Terms)
    requires P.NonNegative(t.price)
    ensures Amount(t) >= 0.0
  {
    P.CostWithinEstimate(t.price, P.Usage(0, 0, 0, 0, 0), t.bodyBytes, t.maxTokens, false);
  }

  /** A record drawn on consistent books and (partly) appended keeps the books. */
  lemma AppendKeepsBooks(cap: real, runCap: real, w: World, w': World, r: Record)
    requires Consistent(BooksOf(w)) && WithinCaps(cap, runCap, BooksOf(w))
    requires AppendOutcome(w.log, r, w'.log)
    requires w'.admitted == w.admitted && w.used <= w'.used && w.settling <= w'.settling <= w.admitted.Keys
    requires forall v :: SameEntries(v, AfterTail(BooksOf(w)))
                         ==> GoodPending(Books(v, Some(r), w'.admitted, w'.used, w'.settling), r)
    ensures Consistent(BooksOf(w')) && WithinCaps(cap, runCap, BooksOf(w'))
  {
    var b := BooksOf(w);
    var v := ApplyLine(b.view, Tail(w.log));
    CloseKeepsConsistent(b, v);
    CloseKeepsCaps(cap, runCap, b, v);
    var c := Closed(b, v);
    if w'.log == w.log {
      UnwrittenKeepsBooks(cap, runCap, b, r, w'.used, w'.settling);
    } else if ViewOf(w'.log) == v && (Parse(Tail(w'.log)) == None || Parse(Tail(w'.log)) == Some(r)) {
      DrawPending(cap, runCap, c, Parse(Tail(w'.log)), w'.used, w'.settling);
    } else {
      DrawPending(cap, runCap, c, Some(r), w'.used, w'.settling);
      var d := c.(pending := Some(r), used := w'.used, settling := w'.settling);
      CloseKeepsConsistent(d, ViewOf(w'.log));
      CloseKeepsCaps(cap, runCap, d, ViewOf(w'.log));
      assert BooksOf(w') == Closed(d, ViewOf(w'.log));
    }
  }

  /** Nothing of the record was written: only the draw is remembered. */
  lemma UnwrittenKeepsBooks(cap: real, runCap: real, b: Books, r: Record, used: set<Id>, settling: set<Id>)
    requires Consistent(b) && WithinCaps(cap, runCap, b)
    requires b.used <= used && b.settling <= settling <= b.admitted.Keys
    ensures var b' := b.(used := used, settling := settling); Consistent(b') && WithinCaps(cap, runCap, b')
  {
    var b' := b.(used := used, settling := settling);
    forall run ensures OpenGrants(b', run) == OpenGrants(b, run) && Exposure(b', run) == Exposure(b, run) {
      assert RunIds(b', run) == RunIds(b, run);
    }
    forall run, top | Tops(b', run, top) ensures Exposure(b', run) < runCap + 4.0 * top {
      assert RunIds(b', run) == RunIds(b, run);
      assert Tops(b, run, top);
    }
    forall id | id in b'.view.entries ensures GoodEntry(b', id, b'.view.entries[id]) {
      assert GoodEntry(b, id, b.view.entries[id]);
    }
  }

  lemma AdmitKeepsBooks(cap: real, runCap: real, w: World, a: Action, w': World)
    requires Inv(cap, runCap, w) && a.Admit? && Next(cap, runCap, w, a, w')
    ensures Consistent(BooksOf(w')) && WithinCaps(cap, runCap, BooksOf(w'))
  {
    var b := BooksOf(w);
    var g := Grant(NewReservation(a.runId, a.terms, a.id), a.terms);
    ReservationNonNegative(a.terms);
    ResyncIsFold(w.readers[a.pid], w.log);
    ViewAfterAppend(w.log, ReserveLine(g.res), a.width);
    WholeAppendEnds(w.log, ReserveLine(g.res), a.width);
    var v := ApplyLine(b.view, Tail(w.log));
    CloseKeepsConsistent(b, v);
    GrantKeepsConsistent(Closed(b, v), g);
    GrantKeepsCaps(cap, runCap, b, v, g);
    assert BooksOf(w') == AfterGrant(Closed(b, v), g);
  }

  lemma AdmitCrashKeepsBooks(cap: real, runCap: real, w: World, a: Action, w': World)
    requires Inv(cap, runCap, w) && a.AdmitCrash? && Next(cap, runCap, w, a, w')
    ensures Consistent(BooksOf(w')) && WithinCaps(cap, runCap, BooksOf(w'))
  {
    var r := ReserveLine(NewReservation(a.runId, a.terms, a.id));
    ReservationNonNegative(a.terms);
    TornAppend(w.log, r, a.width, a.written);
    var b := BooksOf(w);
    assert a.id !in AfterTail(b).entries by {
      assert forall id :: id in b.view.entries ==> GoodEntry(b, id, b.view.entries[id]);
    }
    AppendKeepsBooks(cap, runCap, w, w', r);
  }

  lemma FinishKeepsBooks(cap: real, runCap: real, w: World, id: Id, usage: Option<P.Usage>,
                         width: nat, written: nat, w': World)
    requires Inv(cap, runCap, w) && id in w.admitted && id !in w.settling && width > 0
    requires BilledAsDocumented(w.admitted[id].terms, usage)
    requires written <= |Appended(w.log, FinishLine(w.admitted[id], usage), width)|
    requires w'.log == w.log + Appended(w.log, FinishLine(w.admitted[id], usage), width)[..written]
    requires w'.admitted == w.admitted && w'.used == w.used && w'.settling == w.settling + {id}
    ensures Consistent(BooksOf(w')) && WithinCaps(cap, runCap, BooksOf(w'))
  {
    var r := FinishLine(w.admitted[id], usage);
    var b := BooksOf(w);
    assert GoodGrant(id, b.admitted[id]);
    SettlesWithinReservation(id, w.admitted[id], usage);
    TornAppend(w.log, r, width, written);
    assert EntryAt(AfterTail(b).entries, id).settle.None? by {
      assert b.pending.Some? ==> GoodPending(b, b.pending.value);
    }
    AppendKeepsBooks(cap, runCap, w, w', r);
  }

  lemma {:induction false} SumReplace(order: seq<Id>, es: map<Id, Entry>, id: Id, e: Entry, at: nat)
    requires at < |order| && order[at] == id && forall i, j :: 0 <= i < j < |order| ==> order[i] != order[j]
    ensures Sum(order, es[id := e], All) == Sum(order, es, All) + Charge(e) - Charge(EntryAt(es, id))
  {
    var (last, before) := (|order| - 1, order[..|order| - 1]);
    if at == last {
      SumLe(before, es, All, es[id := e], All);
      SumLe(before, es[id := e], All, es, All);
    } else {
      SumReplace(before, es, id, e, at);
    }
  }

  /** A record moves the total by what its entry's charge moves. */
  lemma SumAfterRecord(v: View, r: Record)
    requires WellFormed(v) && r.id != ""
    ensures var v' := ApplyRecord(v, r);
            Sum(v'.order, v'.entries, All)
            == Sum(v.order, v.entries, All) + Charge(v'.entries[r.id]) - Charge(EntryAt(v.entries, r.id))
  {
    var e := ApplyRecord(v, r).entries[r.id];
    if r.id in v.entries {
      var at :| 0 <= at < |v.order| && v.order[at] == r.id;
      SumReplace(v.order, v.entries, r.id, e, at);
    } else {
      SumExtend(v.order, v.entries, r.id, e, All);
    }
  }

  /** What a torn last line that is whole but for its newline will add to the total once a
      later append ends it: a reservation never granted, or the saving of a settlement. */
  function TornCharge(b: Books): real {
    match b.pending
    case None => 0.0
    case Some(Reserve(_, _, amount, _)) => amount
    case Some(Settle(id, _, _, charged, _)) => charged - (if id in b.admitted then b.admitted[id].res.amount else 0.0)
  }

  /** What a settlement gives back of its reservation. */
  function GivenBack(g: Grant, usage: Option<P.Usage>): real { g.res.amount - FinishLine(g, usage).charged }

  /** One finish's effect on the total; below, `FinishTotal` states it of runs. */
  lemma FinishStep(cap: real, runCap: real, w: World, a: Action, w': World)
    requires Inv(cap, runCap, w) && a.Finish? && Next(cap, runCap, w, a, w')
    ensures var (v, v', g) := (ViewOf(w.log), ViewOf(w'.log), w.admitted[a.id]);
            var back := GivenBack(g, a.usage);
            && back >= 0.0
            && Sum(v'.order, v'.entries, All) == Sum(v.order, v.entries, All) + TornCharge(BooksOf(w)) - back
            && (LineBreak(w.log) ==> Sum(v'.order, v'.entries, All) <= Sum(v.order, v.entries, All))
            && (TornCharge(BooksOf(w)) > 0.0 ==> BooksOf(w).pending.value.Reserve?)
  {
    var b := BooksOf(w);
    var g := w.admitted[a.id];
    var r := FinishLine(g, a.usage);
    var torn := ApplyLine(b.view, Tail(w.log));
    assert GoodGrant(a.id, g) && GoodEntry(b, a.id, b.view.entries[a.id]);
    SettlesWithinReservation(a.id, g, a.usage);
    ViewAfterAppend(w.log, r, a.width);
    TornMoves(b, torn, Tail(w.log));
    FinishMoves(b, torn, Tail(w.log), a.id, g, r);
    if LineBreak(w.log) {
      assert Tail(w.log) == [];
    }
  }

  /** The torn line's share. */
  lemma TornMoves(b: Books, torn: View, tail: Log)
    requires Consistent(b) && b.pending == Parse(tail) && torn == ApplyLine(b.view, tail)
    ensures WellFormed(torn)
    ensures Sum(torn.order, torn.entries, All) == Sum(b.view.order, b.view.entries, All) + TornCharge(b)
    ensures TornCharge(b) > 0.0 ==> b.pending.value.Reserve?
  {
    if b.pending.Some? {
      var p := b.pending.value;
      assert GoodPending(b, p);
      ApplyKeepsWellFormed(b.view, p);
      SumAfterRecord(b.view, p);
      if p.Settle? {
        assert GoodEntry(b, p.id, b.view.entries[p.id]) && GoodGrant(p.id, b.admitted[p.id]);
      }
    }
  }

  /** The settlement's share. */
  lemma FinishMoves(b: Books, torn: View, tail: Log, id: Id, g: Grant, r: Record)
    requires Consistent(b) && b.pending == Parse(tail) && torn == ApplyLine(b.view, tail) && WellFormed(torn)
    requires id in b.admitted && id !in b.settling && b.admitted[id] == g && GoodSettle(g, r)
    ensures var v' := ApplyRecord(torn, r);
            Sum(v'.order, v'.entries, All) == Sum(torn.order, torn.entries, All) - (g.res.amount - r.charged)
  {
    TornLeaves(b, torn, tail, id);
    assert GoodGrant(id, g) && GoodEntry(b, id, b.view.entries[id]);
    SumAfterRecord(torn, r);
  }

  /** A torn line is never about an open granted reservation. */
  lemma TornLeaves(b: Books, torn: View, tail: Log, id: Id)
    requires Consistent(b) && b.pending == Parse(tail) && torn == ApplyLine(b.view, tail)
    requires id in b.admitted && id !in b.settling
    ensures id in torn.entries && torn.entries[id] == b.view.entries[id] && torn.entries[id].settle.None?
  {
    if b.pending.Some? {
      assert GoodPending(b, b.pending.value);
    }
  }

  lemma NextKeepsInv(cap: real, runCap: real, w: World, a: Action, w': World)
    requires Inv(cap, runCap, w) && Next(cap, runCap, w, a, w')
    ensures Inv(cap, runCap, w')
  {
    NextKeepsReaders(cap, runCap, w, a, w');
    match a
    case Open(_) => assert BooksOf(w') == BooksOf(w);
    case Exit(_) => assert BooksOf(w') == BooksOf(w);
    case Read(_) => assert BooksOf(w') == BooksOf(w);
    case Admit(_, _, _, _, _) => AdmitKeepsBooks(cap, runCap, w, a, w');
    case AdmitCrash(_, _, _, _, _, _) => AdmitCrashKeepsBooks(cap, runCap, w, a, w');
    case Finish(_, id, usage, width) =>
      var text := Appended(w.log, FinishLine(w.admitted[id], usage), width);
      assert text[..|text|] == text;
      FinishKeepsBooks(cap, runCap, w, id, usage, width, |text|, w');
    case FinishCrash(_, id, usage, width, written) =>
      FinishKeepsBooks(cap, runCap, w, id, usage, width, written, w');
  }

  lemma LogOnlyGrows(cap: real, runCap: real, w: World, a: Action, w': World)
    requires Next(cap, runCap, w, a, w')
    ensures |w.log| <= |w'.log| && w'.log == w.log + w'.log[|w.log|..]
  {
  }

  /** A process's reader is untouched by a step, or has synced to the new log. */
  lemma ReaderAfter(cap: real, runCap: real, w: World, a: Action, w': World, pid: nat)
    requires ReadersInv(w) && Next(cap, runCap, w, a, w') && pid in w'.readers
    ensures var r := if pid in w.readers then w.readers[pid] else Reader(0, EmptyView);
            r.offset <= |w'.log| && ((pid in w.readers && w'.readers[pid] == r) || w'.readers[pid] == Resync(r, w'.log))
  {
    LogOnlyGrows(cap, runCap, w, a, w');
  }

  lemma NextKeepsReaders(cap: real, runCap: real, w: World, a: Action, w': World)
    requires ReadersInv(w) && Next(cap, runCap, w, a, w')
    ensures ReadersInv(w')
  {
    forall pid | pid in w'.readers ensures ReadsLog(w'.readers[pid], w'.log) {
      var r := if pid in w.readers then w.readers[pid] else Reader(0, EmptyView);
      ReaderAfter(cap, runCap, w, a, w', pid);
      LogOnlyGrows(cap, runCap, w, a, w');
      assert pid !in w.readers ==> w.log[..0] == [];
      ReadsLogGrows(r, w.log, w'.log[|w.log|..]);
      ResyncIsFold(r, w'.log);
    }
  }

  // ---- runs ----------------------------------------------------------------

  /** A run of the system: from the empty log, one step after another. */
  ghost predicate IsRun(cap: real, runCap: real, run: seq<World>, actions: seq<Action>) {
    && |run| == |actions| + 1 && run[0] == Start
    && forall i :: 0 <= i < |actions| ==> Next(cap, runCap, run[i], actions[i], run[i + 1])
  }

  lemma {:induction false} RunKeepsInv(cap: real, runCap: real, run: seq<World>, actions: seq<Action>, i: nat)
    requires IsRun(cap, runCap, run, actions) && i < |run| && 0.0 <= cap
    ensures Inv(cap, runCap, run[i])
  {
    if i == 0 {
      StartInv(cap, runCap);
    } else {
      RunKeepsInv(cap, runCap, run, actions, i - 1);
      NextKeepsInv(cap, runCap, run[i - 1], actions[i - 1], run[i]);
    }
  }

  /** The hard cap: at every moment of every run, whichever processes crash at whichever
      byte, the charges of all granted reservations are at most the cap. */
  lemma GrantedNeverPassCap(cap: real, runCap: real, run: seq<World>, actions: seq<Action>, i: nat)
    requires IsRun(cap, runCap, run, actions) && i < |run| && 0.0 <= cap
    ensures Granted(BooksOf(run[i])) <= cap
    ensures forall id :: id in run[i].admitted ==>
              0.0 <= Charge(EntryAt(ViewOf(run[i].log).entries, id)) <= run[i].admitted[id].res.amount
  {
    RunKeepsInv(cap, runCap, run, actions, i);
    var b := BooksOf(run[i]);
    forall id | id in b.admitted ensures 0.0 <= Charge(EntryAt(b.view.entries, id)) <= b.admitted[id].res.amount {
      assert GoodEntry(b, id, b.view.entries[id]) && GoodGrant(id, b.admitted[id]);
    }
  }

  /** The run guard: a run never has more than four granted reservations open, and what it
      settled and has open together stays below its cap and four times its largest
      reservation. */
  lemma RunExposureBounded(cap: real, runCap: real, run: seq<World>, actions: seq<Action>, i: nat,
                           runId: string, top: real)
    requires IsRun(cap, runCap, run, actions) && i < |run| && 0.0 <= cap
    ensures OpenGrants(BooksOf(run[i]), runId) <= MAX_OPEN_RESERVATIONS_PER_RUN
    ensures Tops(BooksOf(run[i]), runId, top) ==> Exposure(BooksOf(run[i]), runId) < runCap + 4.0 * top
  {
    RunKeepsInv(cap, runCap, run, actions, i);
  }

  /** What a finish does to the total of all charges, exactly: it gives back what was reserved
      over what is charged, and brings in the torn line before it, if there is one. So it
      raises the total exactly when a reservation's line lost its newline in a crash and
      reserved more than the finish gives back; `CrashThenFinish` is such a case. */
  lemma FinishTotal(cap: real, runCap: real, run: seq<World>, actions: seq<Action>, i: nat)
    requires IsRun(cap, runCap, run, actions) && i < |actions| && 0.0 <= cap && actions[i].Finish?
    ensures var (w, v, v') := (run[i], ViewOf(run[i].log), ViewOf(run[i + 1].log));
            var (id, usage) := (actions[i].id, actions[i].usage);
            var back := if id in w.admitted && usage.Some?
                        then w.admitted[id].res.amount - P.Cost(w.admitted[id].terms.price, usage.value, false)
                        else 0.0;
            && back >= 0.0
            && Sum(v'.order, v'.entries, All) == Sum(v.order, v.entries, All) + TornCharge(BooksOf(w)) - back
            && (Sum(v'.order, v'.entries, All) <= Sum(v.order, v.entries, All) <==> TornCharge(BooksOf(w)) <= back)
            && (LineBreak(w.log) ==> Sum(v'.order, v'.entries, All) <= Sum(v.order, v.entries, All))
            && (TornCharge(BooksOf(w)) > 0.0 ==> BooksOf(w).pending.value.Reserve?)
  {
    RunKeepsInv(cap, runCap, run, actions, i);
    FinishStep(cap, runCap, run[i], actions[i], run[i + 1]);
  }

  /** The log and the rest once a process died just before the newline of its reserve line. */
  function NewlineLost(w: World, dies: nat, r: Record): World {
    World(w.log + Text(r, 1), Drop(w.readers, dies), w.admitted, w.used + {r.id}, w.settling)
  }

  lemma LoseNewline(cap: real, runCap: real, w: World, dies: nat, runId: string, t: Terms, id: Id)
    requires LineBreak(w.log) && MayAdmit(cap, runCap, w, dies, runId, t, id, 1)
    ensures Next(cap, runCap, w, AdmitCrash(dies, runId, t, id, 1, 1),
                 NewlineLost(w, dies, ReserveLine(NewReservation(runId, t, id))))
  {
    var text := Appended(w.log, ReserveLine(NewReservation(runId, t, id)), 1);
    assert text[..1] == Text(ReserveLine(NewReservation(runId, t, id)), 1);
  }

  lemma LostIsPending(w: World, dies: nat, r: Record)
    requires LineBreak(w.log) && r.Reserve?
    ensures var torn := NewlineLost(w, dies, r);
            TornCharge(BooksOf(torn)) == r.amount && ViewOf(torn.log) == ViewOf(w.log)
  {
    TornText(w.log, r);
  }

  lemma TornText(log: Log, r: Record)
    requires LineBreak(log)
    ensures Parse(Tail(log + Text(r, 1))) == Some(r) && ViewOf(log + Text(r, 1)) == ViewOf(log)
  {
    TailAfterText(log, Text(r, 1));
    assert Tail(log) == [];
    assert [] + Text(r, 1) == Text(r, 1);
    assert Parse(Text(r, 1)) == Some(r);
  }

  /** A process's finish, as a step. */
  function Finished(w: World, pid: nat, id: Id, usage: Option<P.Usage>): World
    requires pid in w.readers && w.readers[pid].offset <= |w.log| && id in w.admitted
  {
    var log' := w.log + Appended(w.log, FinishLine(w.admitted[id], usage), 1);
    World(log', w.readers[pid := Resync(w.readers[pid], log')], w.admitted, w.used, w.settling + {id})
  }

  /** Wherever a process may reserve something while another holds an open grant: the first dies
      just before its newline, the second settles without usage, and the total has risen. */
  lemma CrashThenFinish(cap: real, runCap: real, w: World, dies: nat, runId: string, t: Terms, id: Id,
                        pid: nat, open: Id) returns (torn: World, w': World)
    requires Inv(cap, runCap, w) && LineBreak(w.log) && dies != pid
    requires MayAdmit(cap, runCap, w, dies, runId, t, id, 1) && MayFinish(w, pid, open, None, 1)
    ensures Next(cap, runCap, w, AdmitCrash(dies, runId, t, id, 1, 1), torn)
    ensures Next(cap, runCap, torn, Finish(pid, open, None, 1), w')
    ensures var (v, v') := (ViewOf(torn.log), ViewOf(w'.log));
            Sum(v'.order, v'.entries, All) == Sum(v.order, v.entries, All) + Amount(t)
  {
    var r := ReserveLine(NewReservation(runId, t, id));
    torn := NewlineLost(w, dies, r);
    LostMayFinish(w, dies, r, pid, open);
    LoseNewline(cap, runCap, w, dies, runId, t, id);
    LostIsPending(w, dies, r);
    NextKeepsInv(cap, runCap, w, AdmitCrash(dies, runId, t, id, 1, 1), torn);
    w' := Finished(torn, pid, open, None);
    FinishStep(cap, runCap, torn, Finish(pid, open, None, 1), w');
  }

  lemma LostMayFinish(w: World, dies: nat, r: Record, pid: nat, open: Id)
    requires dies != pid && MayFinish(w, pid, open, None, 1)
    ensures var torn := NewlineLost(w, dies, r);
            && MayFinish(torn, pid, open, None, 1) && torn.admitted == w.admitted
            && Next(0.0, 0.0, torn, Finish(pid, open, None, 1), Finished(torn, pid, open, None))
            && GivenBack(torn.admitted[open], None) == 0.0
  {
  }

  /** A price of a dollar for each output token. */
  const DOLLAR: P.Price := P.Price(0.0, 0.0, 0.0, 1000000.0, 0.0, 0.0, 0.0, 1000000.0, 0, None)

  const ONE_TOKEN: Terms := Terms(DOLLAR, 0, 1)

  lemma OneDollar()
    ensures Amount(ONE_TOKEN) == 1.0 && P.NonNegative(DOLLAR)
  {
  }

  lemma FirstRecord(r: Record)
    requires r.Reserve? && r.id != ""
    ensures ApplyRecord(EmptyView, r) == View([r.id], map[r.id := Entry(Some(r), None)], 0)
  {
    assert [] + [r.id] == [r.id];
  }

  lemma FirstView(log: Log, r: Record)
    requires r.Reserve? && r.id != "" && log == Appended([], r, 1)
    ensures LineBreak(log) && ViewOf(log) == View([r.id], map[r.id := Entry(Some(r), None)], 0)
  {
    assert [] + log == log;
    ViewAfterAppend([], r, 1);
    FirstRecord(r);
  }

  /** The log of one grant, and what it says of another run's next dollar. */
  lemma OneGrant(log: Log, id: Id)
    requires id != "" && log == Appended([], ReserveLine(NewReservation("a", ONE_TOKEN, id)), 1)
    ensures LineBreak(log) && Decide(ViewOf(log), 10.0, 10.0, "b", 1.0).None?
  {
    var r := ReserveLine(NewReservation("a", ONE_TOKEN, id));
    OneDollar();
    FirstView(log, r);
    DecideAfterOne(id, Entry(Some(r), None));
  }

  lemma DecideAfterOne(id: Id, e: Entry)
    requires e.settle.None? && e.reserve.Some? && Charge(e) == 1.0
    ensures Decide(View([id], map[id := e], 0), 10.0, 10.0, "b", 1.0).None?
  {
    var es := map[id := e];
    assert [id][..0] == [];
    assert Sum([id], es, All) == Sum([], es, All) + Share(All, id, e);
    assert Sum([id], es, SettledOf("b")) == Sum([], es, SettledOf("b")) + Share(SettledOf("b"), id, e);
    assert CountOpen([id], es, OfRun("b")) <= CountOpen([], es, OfRun("b")) + 1;
  }

  /** A process that opens the log reads it to its last line break. */
  lemma Opens(log: Log)
    ensures Resync(Reader(0, EmptyView), log) == Reader(CompleteEnd(log), ViewOf(log))
  {
    assert log[..0] == [];
    ResyncIsFold(Reader(0, EmptyView), log);
  }

  /** All of a log read. */
  function UpToDate(log: Log): Reader { Reader(CompleteEnd(log), ViewOf(log)) }

  /** A process has started and read the log. */
  function Opened(w: World, pid: nat): World { w.(readers := w.readers[pid := UpToDate(w.log)]) }

  /** A reservation granted to a process. */
  function Granting(w: World, pid: nat, runId: string, t: Terms, id: Id): World {
    var res := NewReservation(runId, t, id);
    var log' := w.log + Appended(w.log, ReserveLine(res), 1);
    World(log', w.readers[pid := UpToDate(log')], w.admitted[id := Grant(res, t)], w.used + {id}, w.settling)
  }

  /** A state that some run comes to. */
  ghost predicate Reached(cap: real, runCap: real, w: World) {
    exists run, actions :: IsRun(cap, runCap, run, actions) && run[|actions|] == w
  }

  lemma StartReached(cap: real, runCap: real)
    ensures Reached(cap, runCap, Start)
  {
    var run: seq<World>, actions: seq<Action> := [Start], [];
    assert IsRun(cap, runCap, run, actions) && run[|actions|] == Start;
  }

  lemma StepReached(cap: real, runCap: real, w: World, a: Action, w': World)
    requires Reached(cap, runCap, w) && Next(cap, runCap, w, a, w')
    ensures Reached(cap, runCap, w')
  {
    var run, actions :| IsRun(cap, runCap, run, actions) && run[|actions|] == w;
    var (run', actions') := (run + [w'], actions + [a]);
    forall i | 0 <= i < |actions'| ensures Next(cap, runCap, run'[i], actions'[i], run'[i + 1]) {
      if i < |actions| {
        assert Next(cap, runCap, run[i], actions[i], run[i + 1]);
      }
    }
    assert IsRun(cap, runCap, run', actions') && run'[|actions'|] == w';
  }

  lemma ReachedInv(cap: real, runCap: real, w: World)
    requires Reached(cap, runCap, w) && 0.0 <= cap
    ensures Inv(cap, runCap, w)
  {
    var run, actions :| IsRun(cap, runCap, run, actions) && run[|actions|] == w;
    RunKeepsInv(cap, runCap, run, actions, |actions|);
  }

  lemma StaysUpToDate(log: Log)
    ensures Resync(UpToDate(log), log) == UpToDate(log)
  {
    Opens(log);
    assert log[..0] == [];
    ResyncIsFold(Reader(0, EmptyView), log);
    ResyncIsFold(UpToDate(log), log);
  }

  /** A process that has read the log may admit what the log allows. */
  lemma OpenedMay(w: World, pid: nat, runId: string, id: Id)
    requires id != "" && id !in w.used && Decide(ViewOf(w.log), 10.0, 10.0, runId, 1.0).None?
    ensures MayAdmit(10.0, 10.0, Opened(w, pid), pid, runId, ONE_TOKEN, id, 1)
  {
    OneDollar();
    StaysUpToDate(w.log);
  }

  lemma NothingYet()
    ensures ViewOf([]) == EmptyView && Decide(EmptyView, 10.0, 10.0, "a", 1.0).None?
  {
  }

  /** The log after the first grant. */
  lemma GrantingIs(w: World, pid: nat, runId: string, id: Id)
    requires w.log == []
    ensures Granting(w, pid, runId, ONE_TOKEN, id).log
            == Appended([], ReserveLine(NewReservation(runId, ONE_TOKEN, id)), 1)
  {
    var text := Appended([], ReserveLine(NewReservation(runId, ONE_TOKEN, id)), 1);
    assert [] + text == text;
  }

  lemma OpenReached(w: World, pid: nat)
    requires Reached(10.0, 10.0, w) && pid !in w.readers
    ensures Reached(10.0, 10.0, Opened(w, pid))
  {
    Opens(w.log);
    StepReached(10.0, 10.0, w, Open(pid), Opened(w, pid));
  }

  lemma GrantReached(w: World, pid: nat, runId: string, id: Id)
    requires Reached(10.0, 10.0, w) && MayAdmit(10.0, 10.0, w, pid, runId, ONE_TOKEN, id, 1)
    ensures Reached(10.0, 10.0, Granting(w, pid, runId, ONE_TOKEN, id))
  {
    var w' := Granting(w, pid, runId, ONE_TOKEN, id);
    ReachedInv(10.0, 10.0, w);
    ReadsLogGrows(w.readers[pid], w.log, Appended(w.log, ReserveLine(NewReservation(runId, ONE_TOKEN, id)), 1));
    ResyncIsFold(w.readers[pid], w'.log);
    StepReached(10.0, 10.0, w, Admit(pid, runId, ONE_TOKEN, id, 1), w');
  }

  /** What the first grant leaves, in a world where nothing happened before. */
  lemma FirstGrantLeaves(w0: World, first: Id, second: Id)
    requires w0.log == [] && first !in w0.used && second !in w0.used && first != second && 1 !in w0.readers
    requires first !in w0.settling
    ensures var w2 := Granting(Opened(w0, 0), 0, "a", ONE_TOKEN, first);
            && second !in w2.used && 0 in w2.readers && 1 !in w2.readers
            && first in w2.admitted && first !in w2.settling
  {
  }

  /** One process starts and is granted a dollar, and another starts. */
  lemma BothReached(w0: World, first: Id, second: Id) returns (w: World)
    requires first != "" && second != "" && first != second
    requires Reached(10.0, 10.0, w0) && w0.log == [] && w0.readers == map[] && w0.used == {} && w0.settling == {}
    ensures Reached(10.0, 10.0, w) && LineBreak(w.log)
    ensures MayAdmit(10.0, 10.0, w, 1, "b", ONE_TOKEN, second, 1) && MayFinish(w, 0, first, None, 1)
  {
    NothingYet();
    FirstGrantLeaves(w0, first, second);
    OpenReached(w0, 0);
    OpenedMay(w0, 0, "a", first);
    GrantReached(Opened(w0, 0), 0, "a", first);
    GrantingIs(Opened(w0, 0), 0, "a", first);
    w := SecondOpens(Granting(Opened(w0, 0), 0, "a", ONE_TOKEN, first), first, second);
  }

  lemma SecondOpens(w2: World, first: Id, second: Id) returns (w: World)
    requires Reached(10.0, 10.0, w2) && first != "" && second != "" && second !in w2.used
    requires w2.log == Appended([], ReserveLine(NewReservation("a", ONE_TOKEN, first)), 1)
    requires 0 in w2.readers && 1 !in w2.readers && first in w2.admitted && first !in w2.settling
    ensures Reached(10.0, 10.0, w) && LineBreak(w.log)
    ensures MayAdmit(10.0, 10.0, w, 1, "b", ONE_TOKEN, second, 1) && MayFinish(w, 0, first, None, 1)
  {
    OneGrant(w2.log, first);
    w := Opened(w2, 1);
    OpenReached(w2, 1);
    OpenedMay(w2, 1, "b", second);
    ReachedInv(10.0, 10.0, w2);
    assert ReadsLog(w2.readers[0], w2.log);
  }

  /** So a settlement can raise the total: a state some run comes to, and a finish that does. */
  lemma FinishCanRaise(first: Id, second: Id) returns (w: World, w': World)
    requires first != "" && second != "" && first != second
    ensures Reached(10.0, 10.0, w) && Next(10.0, 10.0, w, Finish(0, first, None, 1), w')
    ensures var (v, v') := (ViewOf(w.log), ViewOf(w'.log));
            Sum(v'.order, v'.entries, All) > Sum(v.order, v.entries, All)
  {
    StartReached(10.0, 10.0);
    var before := BothReached(Start, first, second);
    ReachedInv(10.0, 10.0, before);
    OneDollar();
    w, w' := CrashThenFinish(10.0, 10.0, before, 1, "b", ONE_TOKEN, second, 0, first);
    StepReached(10.0, 10.0, before, AdmitCrash(1, "b", ONE_TOKEN, second, 1, 1), w);
  }

  /** Who takes a step, if it is one that reads. */
  function ReaderOf(a: Action): Option<nat> {
    match a
    case Open(pid) => Some(pid)
    case Read(pid) => Some(pid)
    case Admit(pid, _, _, _, _) => Some(pid)
    case Finish(pid, _, _, _) => Some(pid)
    case _ => None
  }

  /** A process that opened, read, admitted or settled is in step with the whole log. */
  lemma StepLeavesSynced(cap: real, runCap: real, run: seq<World>, actions: seq<Action>, i: nat)
    requires IsRun(cap, runCap, run, actions) && i < |actions| && 0.0 <= cap && ReaderOf(actions[i]).Some?
    ensures var (w, pid) := (run[i + 1], ReaderOf(actions[i]).value);
            pid in w.readers && w.readers[pid] == Reader(CompleteEnd(w.log), ViewOf(w.log))
  {
    RunKeepsInv(cap, runCap, run, actions, i);
    var (w, a, w') := (run[i], actions[i], run[i + 1]);
    var pid := ReaderOf(a).value;
    assert Next(cap, runCap, w, a, w');
    var r := if pid in w.readers then w.readers[pid] else Reader(0, EmptyView);
    assert pid !in w.readers ==> w.log[..0] == [] && w'.log[..0] == [];
    if pid in w.readers {
      LogOnlyGrows(cap, runCap, w, a, w');
      ReadsLogGrows(r, w.log, w'.log[|w.log|..]);
    }
    ResyncIsFold(r, w'.log);
  }

  /** The view every process holds is the fold of the whole lines of the part of the log it has
      read; and after it reads on, of all the log's whole lines. */
  lemma ViewsAgree(cap: real, runCap: real, run: seq<World>, actions: seq<Action>, i: nat, pid: nat)
    requires IsRun(cap, runCap, run, actions) && i < |run| && 0.0 <= cap && pid in run[i].readers
    ensures ReadsLog(run[i].readers[pid], run[i].log)
    ensures Resync(run[i].readers[pid], run[i].log) == Reader(CompleteEnd(run[i].log), ViewOf(run[i].log))
  {
    RunKeepsInv(cap, runCap, run, actions, i);
    ResyncIsFold(run[i].readers[pid], run[i].log);
  }
}
