/** eval/crazeeval/ledger.py, the log: an append-only file of records, one a line, that
    several processes share. Any append may be torn by a crash at any byte. */
module LedgerLog {
  import opened Common

  type Id = string

  /** The fields of the two line kinds that the accounting reads. */
  datatype Record =
    | Reserve(id: Id, runId: string, amount: real, listAmount: real)
    | Settle(id: Id, runId: string, amount: real, charged: real, listCost: real)

  /** One byte of the file. A byte of a record's JSON text is named by the record, the
      byte's position and the length of that text. The text itself holds no newline. */
  datatype Cell = Newline | Byte(record: Record, pos: nat, width: nat)

  type Log = seq<Cell>

  /** A record's JSON text, `width` bytes long. */
  function Text(r: Record, width: nat): Log {
    seq(width, i requires 0 <= i < width => Byte(r, i, width))
  }

  /** `json.loads(line)`: only a whole text parses, no strict prefix of one does. */
  function Parse(line: Log): Option<Record> {
    if line != [] && line[0].Byte? && line == Text(line[0].record, line[0].width)
    then Some(line[0].record) else None
  }

  // ---- lines ---------------------------------------------------------------

  /** Where the newline-terminated part of the log ends. */
  function CompleteEnd(log: Log): (e: nat)
    ensures e <= |log|
    ensures e == 0 || log[e - 1] == Newline
    ensures forall i :: e <= i < |log| ==> log[i] != Newline
  {
    if log == [] then 0
    else if log[|log| - 1] == Newline then |log|
    else CompleteEnd(log[..|log| - 1])
  }

  /** The unterminated end of the log: the start of a torn append. */
  function Tail(log: Log): Log { log[CompleteEnd(log)..] }

  predicate LineBreak(log: Log) { log == [] || log[|log| - 1] == Newline }

  /** The newline-terminated lines. */
  function Lines(log: Log): seq<Log>
    decreases |log|
  {
    if log == [] then []
    else if log[|log| - 1] == Newline then
      Lines(log[..|log| - 1][..CompleteEnd(log[..|log| - 1])]) + [Tail(log[..|log| - 1])]
    else Lines(log[..|log| - 1])
  }

  /** What one append writes: the record's line, after a newline of its own when the log
      ends mid-line. */
  function Appended(log: Log, r: Record, width: nat): Log {
    (if LineBreak(log) then [] else [Newline]) + Text(r, width) + [Newline]
  }

  // ---- entries -------------------------------------------------------------

  datatype Entry = Entry(reserve: Option<Record>, settle: Option<Record>)

  /** A process's `_entries`, in insertion order, and its count of torn lines. */
  datatype View = View(order: seq<Id>, entries: map<Id, Entry>, torn: nat)

  const EmptyView: View := View([], map[], 0)

  /** `_apply` */
  function ApplyRecord(v: View, r: Record): View {
    if r.id == "" then v else
      var known := r.id in v.entries;
      var was := if known then v.entries[r.id] else Entry(None, None);
      var updated := if r.Reserve? then was.(reserve := Some(r)) else was.(settle := Some(r));
      View(if known then v.order else v.order + [r.id], v.entries[r.id := updated], v.torn)
  }

  function ApplyLine(v: View, line: Log): View {
    if line == [] then v
    else match Parse(line)
         case None => v.(torn := v.torn + 1)
         case Some(r) => ApplyRecord(v, r)
  }

  function Replay(v: View, lines: seq<Log>): View {
    if lines == [] then v else ApplyLine(Replay(v, lines[..|lines| - 1]), lines[|lines| - 1])
  }

  /** The log's meaning: the fold of its newline-terminated lines. */
  function ViewOf(log: Log): View { Replay(EmptyView, Lines(log)) }

  // ---- charges -------------------------------------------------------------

  function Charge(e: Entry): real {
    if e.settle.Some? then
      (match e.settle.value case Settle(_, _, _, charged, _) => charged case _ => 0.0)
    else if e.reserve.Some? then e.reserve.value.amount
    else 0.0
  }

  function RunOf(e: Entry): Option<string> {
    if e.reserve.Some? then Some(e.reserve.value.runId)
    else if e.settle.Some? then Some(e.settle.value.runId)
    else None
  }

  /** Which entries a sum takes. */
  datatype Filter = All | OfRun(run: string) | SettledOf(run: string) | Among(ids: set<Id>)

  predicate Takes(f: Filter, id: Id, e: Entry) {
    match f
    case All => true
    case OfRun(run) => RunOf(e) == Some(run)
    case SettledOf(run) => RunOf(e) == Some(run) && e.settle.Some?
    case Among(ids) => id in ids
  }

  predicate WellFormed(v: View) {
    && (forall i :: 0 <= i < |v.order| ==> v.order[i] in v.entries)
    && (forall id :: id in v.entries ==> id in v.order)
    && (forall i, j :: 0 <= i < j < |v.order| ==> v.order[i] != v.order[j])
  }

  function EntryAt(entries: map<Id, Entry>, id: Id): Entry {
    if id in entries then entries[id] else Entry(None, None)
  }

  /** What an entry adds to a filtered sum. */
  function Share(f: Filter, id: Id, e: Entry): real { if Takes(f, id, e) then Charge(e) else 0.0 }

  /** The sum of the charges a filter takes, over the ids in `order`. */
  function Sum(order: seq<Id>, entries: map<Id, Entry>, f: Filter): real {
    if order == [] then 0.0 else
      var id := order[|order| - 1];
      Sum(order[..|order| - 1], entries, f) + Share(f, id, EntryAt(entries, id))
  }

  predicate OpenIn(f: Filter, id: Id, e: Entry) { Takes(f, id, e) && e.settle.None? }

  /** How many of the entries a filter takes are open. */
  function CountOpen(order: seq<Id>, entries: map<Id, Entry>, f: Filter): nat {
    if order == [] then 0 else
      var id := order[|order| - 1];
      CountOpen(order[..|order| - 1], entries, f) + (if OpenIn(f, id, EntryAt(entries, id)) then 1 else 0)
  }

  // ---- admission -----------------------------------------------------------

  const MAX_OPEN_RESERVATIONS_PER_RUN: nat := 4

  datatype Refusal = BudgetStop | BudgetCapped

  /** `admit`'s decision on a synced view. */
  function Decide(v: View, cap: real, runCap: real, runId: string, amount: real): Option<Refusal> {
    if Sum(v.order, v.entries, All) + amount > cap then Some(BudgetStop)
    else if Sum(v.order, v.entries, SettledOf(runId)) >= runCap then Some(BudgetCapped)
    else if CountOpen(v.order, v.entries, OfRun(runId)) >= MAX_OPEN_RESERVATIONS_PER_RUN then Some(BudgetCapped)
    else None
  }

  /** `settle`'s charge: the cost when usage came, else the reservation. */
  function Charged(amount: real, cost: Option<real>): real {
    if cost.Some? then cost.value else amount
  }

  // ---- lemmas: lines and views as the log grows ----------------------------

  lemma CompleteEndOf(log: Log, e: nat)
    requires e <= |log| && (e == 0 || log[e - 1] == Newline)
    requires forall i :: e <= i < |log| ==> log[i] != Newline
    ensures CompleteEnd(log) == e
  {
  }

  lemma {:induction false} LinesIgnoreTail(log: Log)
    ensures Lines(log) == Lines(log[..CompleteEnd(log)])
  {
    if LineBreak(log) {
      assert log[..|log|] == log;
    } else {
      var l := log[..|log| - 1];
      LinesIgnoreTail(l);
      assert log[..CompleteEnd(log)] == l[..CompleteEnd(l)];
    }
  }

  /** A line break closes the unterminated end as one more line. */
  lemma LinesAfterNewline(log: Log)
    ensures Lines(log + [Newline]) == Lines(log) + [Tail(log)]
  {
    assert (log + [Newline])[..|log|] == log;
    LinesIgnoreTail(log);
  }

  lemma {:induction false} TailAfterText(log: Log, more: Log)
    requires forall i :: 0 <= i < |more| ==> more[i] != Newline
    ensures Lines(log + more) == Lines(log) && Tail(log + more) == Tail(log) + more
  {
    var all := log + more;
    var e := CompleteEnd(log);
    assert forall i :: e <= i < |all| ==> all[i] == (if i < |log| then log[i] else more[i - |log|]);
    CompleteEndOf(all, e);
    assert all[e..] == log[e..] + more;
    LinesIgnoreTail(log);
    LinesIgnoreTail(all);
    assert all[..e] == log[..e];
  }

  lemma LinesAfterLine(log: Log, r: Record, width: nat)
    requires LineBreak(log)
    ensures Lines((log + Text(r, width)) + [Newline]) == Lines(log) + [Text(r, width)]
  {
    TailAfterText(log, Text(r, width));
    LinesAfterNewline(log + Text(r, width));
    assert Tail(log) + Text(r, width) == Text(r, width);
  }

  /** The torn end a log had becomes a line of its own when the next append starts. */
  function Torn(log: Log): seq<Log> { if LineBreak(log) then [] else [Tail(log)] }

  /** After an append the log has its old lines, its torn end as one line when it had one,
      and the new record's line; and it ends at a line break. */
  lemma LinesAfterAppend(log: Log, r: Record, width: nat)
    ensures LineBreak(log + Appended(log, r, width))
    ensures Lines(log + Appended(log, r, width)) == Lines(log) + Torn(log) + [Text(r, width)]
  {
    if LineBreak(log) {
      assert log + Appended(log, r, width) == (log + Text(r, width)) + [Newline];
      LinesAfterLine(log, r, width);
      assert Lines(log) + [] == Lines(log);
    } else {
      assert log + Appended(log, r, width) == ((log + [Newline]) + Text(r, width)) + [Newline];
      LinesAfterLine(log + [Newline], r, width);
      LinesAfterNewline(log);
    }
  }

  lemma {:induction false} ReplayConcat(v: View, a: seq<Log>, b: seq<Log>)
    ensures Replay(v, a + b) == Replay(Replay(v, a), b)
    decreases |b|
  {
    if b == [] {
      assert a + b == a;
    } else {
      assert (a + b)[..|a + b| - 1] == a + b[..|b| - 1];
      ReplayConcat(v, a, b[..|b| - 1]);
    }
  }

  lemma ReplayOne(v: View, line: Log)
    ensures Replay(v, [line]) == ApplyLine(v, line)
  {
    assert [line][..0] == [];
  }

  /** The view once an append is through: the torn end applied, then the record. */
  lemma ViewAfterAppend(log: Log, r: Record, width: nat)
    requires width > 0
    ensures ViewOf(log + Appended(log, r, width)) == ApplyRecord(ApplyLine(ViewOf(log), Tail(log)), r)
  {
    LinesAfterAppend(log, r, width);
    assert Parse(Text(r, width)) == Some(r);
    ReplayConcat(EmptyView, Lines(log), Torn(log));
    ReplayConcat(EmptyView, Lines(log) + Torn(log), [Text(r, width)]);
    ReplayOne(ViewOf(log), Tail(log));
    ReplayOne(ApplyLine(ViewOf(log), Tail(log)), Text(r, width));
    if LineBreak(log) {
      assert CompleteEnd(log) == |log|;
      assert Tail(log) == [];
    }
  }

  /** Reading on from a line break sees the lines of what follows. */
  lemma {:induction false} LinesConcat(a: Log, b: Log)
    requires LineBreak(a)
    ensures Lines(a + b) == Lines(a) + Lines(b)
    decreases |b|
  {
    if b == [] {
      assert a + b == a;
    } else {
      var b' := b[..|b| - 1];
      LinesConcat(a, b');
      assert b == b' + [b[|b| - 1]];
      if b[|b| - 1] == Newline {
        ConcatNewline(a, b');
      } else {
        ConcatByte(a, b', b[|b| - 1]);
      }
    }
  }

  lemma ConcatByte(a: Log, b: Log, c: Cell)
    requires c != Newline && Lines(a + b) == Lines(a) + Lines(b)
    ensures Lines(a + (b + [c])) == Lines(a) + Lines(b + [c])
  {
    TailAfterText(b, [c]);
    TailAfterText(a + b, [c]);
    Assoc(a, b, [c]);
  }

  lemma ConcatNewline(a: Log, b: Log)
    requires LineBreak(a) && Lines(a + b) == Lines(a) + Lines(b)
    ensures Lines(a + (b + [Newline])) == Lines(a) + Lines(b + [Newline])
  {
    TailConcat(a, b);
    LinesAfterNewline(a + b);
    LinesAfterNewline(b);
    Assoc(a, b, [Newline]);
    Assoc(Lines(a), Lines(b), [Tail(b)]);
  }

  lemma TailConcat(a: Log, b: Log)
    requires LineBreak(a)
    ensures CompleteEnd(a + b) == |a| + CompleteEnd(b) && Tail(a + b) == Tail(b)
  {
    CompleteEndOf(a + b, |a| + CompleteEnd(b));
    assert (a + b)[|a| + CompleteEnd(b)..] == b[CompleteEnd(b)..];
  }

  // ---- lemmas: sums --------------------------------------------------------

  lemma {:induction false} SumLe(order: seq<Id>, e1: map<Id, Entry>, f1: Filter, e2: map<Id, Entry>, f2: Filter)
    requires forall i :: 0 <= i < |order| ==>
               Share(f1, order[i], EntryAt(e1, order[i])) <= Share(f2, order[i], EntryAt(e2, order[i]))
    ensures Sum(order, e1, f1) <= Sum(order, e2, f2)
  {
    if order != [] {
      SumLe(order[..|order| - 1], e1, f1, e2, f2);
    }
  }

  lemma {:induction false} CountLe(order: seq<Id>, e1: map<Id, Entry>, f1: Filter, e2: map<Id, Entry>, f2: Filter)
    requires forall i :: 0 <= i < |order| ==>
               OpenIn(f1, order[i], EntryAt(e1, order[i])) ==> OpenIn(f2, order[i], EntryAt(e2, order[i]))
    ensures CountOpen(order, e1, f1) <= CountOpen(order, e2, f2)
  {
    if order != [] {
      CountLe(order[..|order| - 1], e1, f1, e2, f2);
    }
  }

  /** `n * top` */
  function Times(n: nat, top: real): real { if n == 0 then 0.0 else Times(n - 1, top) + top }

  /** A sum is at most a settled part plus `top` for each open entry. */
  lemma {:induction false} SumBySettled(order: seq<Id>, es: map<Id, Entry>,
                                        f: Filter, settled: Filter, open: Filter, top: real)
    requires forall i :: 0 <= i < |order| ==>
               Share(f, order[i], EntryAt(es, order[i]))
               <= Share(settled, order[i], EntryAt(es, order[i]))
                  + (if OpenIn(open, order[i], EntryAt(es, order[i])) then top else 0.0)
    ensures Sum(order, es, f) <= Sum(order, es, settled) + Times(CountOpen(order, es, open), top)
  {
    if order != [] {
      var rest := order[..|order| - 1];
      SumBySettled(rest, es, f, settled, open, top);
    }
  }

  lemma ApplyKeepsWellFormed(v: View, r: Record)
    requires WellFormed(v)
    ensures WellFormed(ApplyRecord(v, r))
  {
    var v' := ApplyRecord(v, r);
    if r.id != "" && r.id !in v.entries {
      assert v'.order == v.order + [r.id];
      assert forall i :: 0 <= i < |v.order| ==> v.order[i] != r.id;
    }
  }

  lemma {:induction false} ReplayWellFormed(lines: seq<Log>)
    ensures WellFormed(Replay(EmptyView, lines))
  {
    if lines != [] {
      ReplayWellFormed(lines[..|lines| - 1]);
      var v := Replay(EmptyView, lines[..|lines| - 1]);
      var line := lines[|lines| - 1];
      if Parse(line).Some? {
        ApplyKeepsWellFormed(v, Parse(line).value);
      }
    }
  }

  // ---- lemmas: a torn append -----------------------------------------------

  /** Where a torn or whole append of `r` leaves a log: nothing written; the old torn end
      closed and a new one begun, a whole record only when all its text was written; or all
      of it, visible. */
  ghost predicate AppendOutcome(log: Log, r: Record, log': Log) {
    || log' == log
    || (&& ViewOf(log') == ApplyLine(ViewOf(log), Tail(log))
        && (Parse(Tail(log')) == None || Parse(Tail(log')) == Some(r)))
    || (&& ViewOf(log') == ApplyRecord(ApplyLine(ViewOf(log), Tail(log)), r)
        && Tail(log') == [])
  }

  lemma TornAppend(log: Log, r: Record, width: nat, written: nat)
    requires width > 0 && written <= |Appended(log, r, width)|
    ensures AppendOutcome(log, r, log + Appended(log, r, width)[..written])
  {
    var text := Appended(log, r, width);
    var log' := log + text[..written];
    var sep := if LineBreak(log) then 0 else 1;
    if written < sep {
      assert log' == log;
    } else if written == |text| {
      assert text[..written] == text;
      ViewAfterAppend(log, r, width);
      WholeAppendEnds(log, r, width);
    } else {
      var part := Text(r, width)[..written - sep];
      var log1 := if LineBreak(log) then log else log + [Newline];
      assert log' == log1 + part;
      TailAfterText(log1, part);
      CloseTail(log);
      assert Tail(log1) + part == part;
      PartParses(r, width, written - sep);
    }
  }

  lemma WholeAppendEnds(log: Log, r: Record, width: nat)
    ensures Tail(log + Appended(log, r, width)) == []
  {
    LinesAfterAppend(log, r, width);
  }

  lemma CloseTail(log: Log)
    ensures var log1 := if LineBreak(log) then log else log + [Newline];
            LineBreak(log1) && Tail(log1) == [] && ViewOf(log1) == ApplyLine(ViewOf(log), Tail(log))
  {
    if LineBreak(log) {
      assert Tail(log) == [];
    } else {
      LinesAfterNewline(log);
      ReplayConcat(EmptyView, Lines(log), [Tail(log)]);
      ReplayOne(ViewOf(log), Tail(log));
    }
  }

  lemma PartParses(r: Record, width: nat, k: nat)
    requires 0 < width && k <= width
    ensures Parse(Text(r, width)[..k]) == None || Parse(Text(r, width)[..k]) == Some(r)
  {
  }
}
