/** eval/crazeeval/ledger.py: `Ledger`. Every method runs under the exclusive lock, so a
    method is one atomic step of the shared log. */
module Ledgers {
  import opened Common
  import opened LedgerLog
  import opened LedgerMeaning

  /** The file every ledger of every process has open. */
  class LogFile {
    var data: Log

    constructor ()
      ensures data == []
    {
      data := [];
    }
  }

  datatype Reservation = Reservation(id: Id, runId: string, amount: real, listAmount: real)

  datatype Admission = Admission(refusal: Option<Refusal>, reservation: Option<Reservation>,
                                 totalBefore: real, runTotalBefore: real)

  function ReserveLine(res: Reservation): Record { Reserve(res.id, res.runId, res.amount, res.listAmount) }

  class Ledger {
    const file: LogFile
    const cap: real
    const runCap: real
    var offset: nat
    var order: seq<Id>
    var entries: map<Id, Entry>
    var tornLines: nat

    ghost function TheView(): View
      reads this
    {
      View(order, entries, tornLines)
    }

    /** What was read is the fold of the whole lines up to the offset. */
    ghost predicate Valid()
      reads this, file
    {
      offset <= |file.data| && LineBreak(file.data[..offset]) && TheView() == ViewOf(file.data[..offset])
    }

    /** Nothing more to read: the view is the log's. */
    ghost predicate Synced()
      reads this, file
    {
      offset == CompleteEnd(file.data) && TheView() == ViewOf(file.data)
    }

    constructor (file: LogFile, cap: real, runCap: real)
      ensures this.file == file && this.cap == cap && this.runCap == runCap
      ensures Valid() && Synced()
    {
      this.file := file;
      this.cap := cap;
      this.runCap := runCap;
      offset, order, entries, tornLines := 0, [], map[], 0;
      new;
      assert file.data[..0] == [];
      Sync();
    }

    method Sync()
      requires Valid()
      modifies this
      ensures Valid() && Synced()
    {
      var data := file.data[offset..];
      var end := EndOfLastLine(data);
      ghost var (log, before, e) := (file.data, file.data[..offset], offset + end);
      assert log == before + data;
      ReadFrom(before, data, end, log, e);
      if end == 0 {
        return;
      }
      offset := offset + end;
      ReplayLines(data[..end]);
      assert TheView() == ViewOf(log) && file.data[..offset] == log[..e];
    }

    /** The loop of `_sync` over the lines read. */
    method ReplayLines(chunk: Log)
      requires LineBreak(chunk)
      modifies this`order, this`entries, this`tornLines
      ensures TheView() == Replay(old(TheView()), Lines(chunk))
    {
      var pos := 0;
      assert chunk[..0] == [];
      while pos < |chunk|
        invariant 0 <= pos <= |chunk|
        invariant LineBreak(chunk[..pos])
        invariant TheView() == Replay(old(TheView()), Lines(chunk[..pos]))
      {
        var e := EndOfLine(chunk, pos);
        ReplayNextLine(old(TheView()), chunk, pos, e);
        ReplayLine(chunk[pos..e]);
        pos := e + 1;
      }
      assert chunk[..pos] == chunk;
    }

    method ReplayLine(line: Log)
      modifies this`order, this`entries, this`tornLines
      ensures TheView() == ApplyLine(old(TheView()), line)
    {
      if line != [] {
        var parsed := Parse(line);
        if parsed.None? {
          tornLines := tornLines + 1;
        } else {
          Apply(parsed.value);
        }
      }
    }

    method Apply(rec: Record)
      modifies this`order, this`entries
      ensures TheView() == ApplyRecord(old(TheView()), rec)
    {
      if rec.id == "" {
        return;
      }
      if rec.id !in entries {
        entries := entries[rec.id := Entry(None, None)];
        order := order + [rec.id];
      }
      var e := entries[rec.id];
      if rec.Reserve? {
        entries := entries[rec.id := e.(reserve := Some(rec))];
      } else {
        entries := entries[rec.id := e.(settle := Some(rec))];
      }
    }

    /** A line of its own at the end of the file, whatever a dead writer left there. */
    method Append(rec: Record, width: nat)
      modifies file
      ensures file.data == old(file.data) + Appended(old(file.data), rec, width)
    {
      var line := Text(rec, width) + [Newline];
      if file.data != [] && file.data[|file.data| - 1] != Newline {
        line := [Newline] + line;
      }
      file.data := file.data + line;
    }

    /** Charges so far: everyone's, the run's, the run's settled part, and the run's count
        of open reservations. */
    method Totals(runId: string) returns (total: real, runTotal: real, runSettled: real, runOpen: nat)
      requires WellFormed(TheView())
      ensures total == Sum(order, entries, All)
      ensures runTotal == Sum(order, entries, OfRun(runId))
      ensures runSettled == Sum(order, entries, SettledOf(runId))
      ensures runOpen == CountOpen(order, entries, OfRun(runId))
    {
      total, runTotal, runSettled, runOpen := 0.0, 0.0, 0.0, 0;
      var i := 0;
      while i < |order|
        invariant 0 <= i <= |order|
        invariant total == Sum(order[..i], entries, All)
        invariant runTotal == Sum(order[..i], entries, OfRun(runId))
        invariant runSettled == Sum(order[..i], entries, SettledOf(runId))
        invariant runOpen == CountOpen(order[..i], entries, OfRun(runId))
      {
        SumNext(order, entries, runId, i);
        assert order[i] in entries;
        var e := entries[order[i]];
        var c := Charge(e);
        total := total + c;
        if RunOf(e) == Some(runId) {
          runTotal := runTotal + c;
          if e.settle.Some? {
            runSettled := runSettled + c;
          } else {
            runOpen := runOpen + 1;
          }
        }
        i := i + 1;
      }
      assert order[..i] == order;
    }

    /** Reserve `amount`, or refuse: by what all ids owe, by what the run has settled, and by its
        open ids. The id is fresh (a uuid), `width` the line's length. */
    method Admit(runId: string, amount: real, listAmount: real, id: Id, width: nat) returns (adm: Admission)
      requires Valid() && width > 0
      modifies this, file
      ensures Valid() && Synced()
      ensures adm.refusal == Decide(ViewOf(old(file.data)), cap, runCap, runId, amount)
      ensures var v := ViewOf(old(file.data));
              && Kinds(v) && adm.totalBefore == Total(v.entries.Keys, Owed(v))
              && adm.runTotalBefore == Total(IdsOf(v, runId), Owed(v))
              && (adm.refusal == Some(BudgetStop) <==> adm.totalBefore + amount > cap)
              && (adm.refusal == None <==> adm.totalBefore + amount <= cap
                                           && Total(Spent(v, runId), Owed(v)) < runCap && |Open(v, runId)| < 4)
      ensures adm.reservation == if adm.refusal.None? then Some(Reservation(id, runId, amount, listAmount)) else None
      ensures file.data == if adm.refusal.None?
                           then old(file.data) + Appended(old(file.data), ReserveLine(adm.reservation.value), width)
                           else old(file.data)
    {
      Sync();
      ReplayWellFormed(Lines(file.data));
      ReplayKinds(Lines(file.data));
      SumsAreTotals(TheView(), runId);
      AdmittedWhen(TheView(), cap, runCap, runId, amount);
      var total, runTotal, runSettled, runOpen := Totals(runId);
      if total + amount > cap {
        return Admission(Some(BudgetStop), None, total, runTotal);
      }
      if runSettled >= runCap {
        return Admission(Some(BudgetCapped), None, total, runTotal);
      }
      if runOpen >= MAX_OPEN_RESERVATIONS_PER_RUN {
        return Admission(Some(BudgetCapped), None, total, runTotal);
      }
      var res := Reservation(id, runId, amount, listAmount);
      ghost var before := file.data;
      Append(ReserveLine(res), width);
      assert file.data[..offset] == before[..offset];
      Sync();
      return Admission(None, Some(res), total, runTotal);
    }

    /** Reconcile a reservation: without usage it stays the charge. */
    method Settle(res: Reservation, hasUsage: bool, cost: Option<real>, listCost: Option<real>, width: nat)
        returns (charged: real)
      requires Valid() && width > 0
      modifies this, file
      ensures Valid() && Synced()
      ensures charged == Charged(res.amount, if hasUsage then cost else None)
      ensures hasUsage && cost.Some? ==> charged == cost.value
      ensures !hasUsage || cost.None? ==> charged == res.amount
      ensures file.data == old(file.data) + Appended(old(file.data), SettleLine(res, charged, listCost), width)
    {
      charged := if hasUsage && cost.Some? then cost.value else res.amount;
      ghost var before := file.data;
      Append(SettleLine(res, charged, listCost), width);
      assert file.data[..offset] == before[..offset];
      Sync();
    }
  }

  function SettleLine(res: Reservation, charged: real, listCost: Option<real>): Record {
    LedgerLog.Settle(res.id, res.runId, res.amount, charged, if listCost.Some? then listCost.value else 0.0)
  }

  /** `data.rfind(b"\n") + 1` */
  method EndOfLastLine(data: Log) returns (end: nat)
    ensures end == CompleteEnd(data)
  {
    end := |data|;
    while end > 0 && data[end - 1] != Newline
      invariant 0 <= end <= |data|
      invariant forall i :: end <= i < |data| ==> data[i] != Newline
    {
      end := end - 1;
    }
    CompleteEndOf(data, end);
  }

  /** The next newline at or after `pos`. */
  method EndOfLine(chunk: Log, pos: nat) returns (e: nat)
    requires pos < |chunk| && LineBreak(chunk)
    ensures pos <= e < |chunk| && chunk[e] == Newline
    ensures forall i :: pos <= i < e ==> chunk[i] != Newline
  {
    e := pos;
    while chunk[e] != Newline
      invariant pos <= e < |chunk|
      invariant forall i :: pos <= i < e ==> chunk[i] != Newline
      decreases |chunk| - e
    {
      e := e + 1;
    }
  }

  /** Reading on from a line break: the view of the whole log is that of the part read,
      carried on over the lines of the rest. */
  lemma ReadOn(before: Log, data: Log)
    requires LineBreak(before)
    ensures CompleteEnd(before + data) == |before| + CompleteEnd(data)
    ensures ViewOf(before + data) == Replay(ViewOf(before), Lines(data[..CompleteEnd(data)]))
    ensures LineBreak(data[..CompleteEnd(data)])
    ensures CompleteEnd(data) == 0 ==> ViewOf(before + data) == ViewOf(before)
  {
    TailConcat(before, data);
    LinesConcat(before, data);
    LinesIgnoreTail(data);
    ReplayConcat(EmptyView, Lines(before), Lines(data));
    if CompleteEnd(data) == 0 {
      NoWholeLine(before, data);
    }
  }

  lemma SumNext(order: seq<Id>, es: map<Id, Entry>, runId: string, i: nat)
    requires i < |order|
    ensures var (before, after, id) := (order[..i], order[..i + 1], order[i]);
            var e := EntryAt(es, id);
            && Sum(after, es, All) == Sum(before, es, All) + Share(All, id, e)
            && Sum(after, es, OfRun(runId)) == Sum(before, es, OfRun(runId)) + Share(OfRun(runId), id, e)
            && Sum(after, es, SettledOf(runId)) == Sum(before, es, SettledOf(runId)) + Share(SettledOf(runId), id, e)
            && CountOpen(after, es, OfRun(runId))
               == CountOpen(before, es, OfRun(runId)) + (if OpenIn(OfRun(runId), id, e) then 1 else 0)
  {
    assert order[..i + 1][..i] == order[..i];
  }

  /** What a sync reads of the data behind a line break. */
  lemma ReadFrom(before: Log, data: Log, end: nat, log: Log, e: nat)
    requires log == before + data && LineBreak(before) && end == CompleteEnd(data) && e == |before| + end
    ensures e == CompleteEnd(log) && LineBreak(data[..end])
    ensures ViewOf(log) == Replay(ViewOf(before), Lines(data[..end]))
    ensures LineBreak(log[..e]) && ViewOf(log[..e]) == ViewOf(log)
    ensures end == 0 ==> ViewOf(log) == ViewOf(before)
  {
    ReadOn(before, data);
    CompletePart(log, e);
  }

  lemma NoWholeLine(before: Log, data: Log)
    requires LineBreak(before) && CompleteEnd(data) == 0
    ensures ViewOf(before + data) == ViewOf(before)
  {
    LinesConcat(before, data);
    LinesIgnoreTail(data);
    assert data[..0] == [];
    assert Lines(before) + [] == Lines(before);
  }

  /** The whole lines of a log carry all of its view. */
  lemma CompletePart(log: Log, e: nat)
    requires e == CompleteEnd(log)
    ensures LineBreak(log[..e]) && ViewOf(log[..e]) == ViewOf(log)
  {
    LinesIgnoreTail(log);
  }

  lemma ReplayNextLine(v: View, chunk: Log, pos: nat, e: nat)
    requires pos <= e < |chunk| && LineBreak(chunk[..pos])
    requires chunk[e] == Newline && forall i :: pos <= i < e ==> chunk[i] != Newline
    ensures Replay(v, Lines(chunk[..e + 1])) == ApplyLine(Replay(v, Lines(chunk[..pos])), chunk[pos..e])
    ensures LineBreak(chunk[..e + 1])
  {
    NextLine(chunk, pos, e);
    ReplayConcat(v, Lines(chunk[..pos]), [chunk[pos..e]]);
    ReplayOne(Replay(v, Lines(chunk[..pos])), chunk[pos..e]);
  }

  lemma NextLine(chunk: Log, pos: nat, e: nat)
    requires pos <= e < |chunk| && LineBreak(chunk[..pos])
    requires chunk[e] == Newline && forall i :: pos <= i < e ==> chunk[i] != Newline
    ensures Lines(chunk[..e + 1]) == Lines(chunk[..pos]) + [chunk[pos..e]]
  {
    var line := chunk[pos..e];
    assert chunk[..e] == chunk[..pos] + line;
    TailAfterText(chunk[..pos], line);
    CompleteEndOf(chunk[..pos], pos);
    assert Tail(chunk[..pos]) + line == line;
    assert chunk[..e + 1] == chunk[..e] + [Newline];
    LinesAfterNewline(chunk[..e]);
  }
}
