/** eval/crazeeval/ledger.py: what the log's fold and the ledger's sums come to, told by the
    records written and by the ids, in no order; and when a request is admitted. */
module LedgerMeaning {
  import opened Common
  import opened LedgerLog

  // ---- what was written is what is read ------------------------------------

  /** The log that some appends leave. */
  ghost function Written(rs: seq<Record>, widths: seq<nat>): Log
    requires |widths| == |rs|
  {
    if rs == [] then []
    else
      var log := Written(rs[..|rs| - 1], widths[..|rs| - 1]);
      log + Appended(log, rs[|rs| - 1], widths[|rs| - 1])
  }

  predicate IsLast(rs: seq<Record>, i: int) {
    && 0 <= i < |rs|
    && forall j :: i < j < |rs| ==> rs[j].id != rs[i].id || rs[j].Reserve? != rs[i].Reserve?
  }

  /** The first record of `x` comes before any of `y`. */
  ghost predicate FirstBefore(rs: seq<Record>, x: Id, y: Id) {
    exists i :: 0 <= i < |rs| && rs[i].id == x && forall j :: 0 <= j <= i ==> rs[j].id != y
  }

  /** The entries are those of the ids written. */
  ghost predicate HoldsIds(rs: seq<Record>, v: View) {
    forall id :: id in v.entries <==> id != "" && exists i :: 0 <= i < |rs| && rs[i].id == id
  }

  /** An id's entry holds the last reservation and the last settlement that name it. */
  ghost predicate HoldsLast(rs: seq<Record>, v: View) {
    forall i :: IsLast(rs, i) && rs[i].id in v.entries ==>
      Some(rs[i]) == if rs[i].Reserve? then v.entries[rs[i].id].reserve else v.entries[rs[i].id].settle
  }

  /** And no other. */
  ghost predicate HoldsOnly(rs: seq<Record>, v: View) {
    forall id :: id in v.entries ==>
      && PartOf(rs, id, true, v.entries[id].reserve)
      && PartOf(rs, id, false, v.entries[id].settle)
  }

  predicate PartOf(rs: seq<Record>, id: Id, reserves: bool, part: Option<Record>) {
    part.Some? ==> part.value in rs && part.value.Reserve? == reserves && part.value.id == id
  }

  /** The ids stand in the order they first came. */
  ghost predicate FirstComeOrder(rs: seq<Record>, v: View) {
    forall a, b :: 0 <= a < b < |v.order| ==> FirstBefore(rs, v.order[a], v.order[b])
  }

  lemma ApplyHolds(rs: seq<Record>, v: View, r: Record)
    requires HoldsIds(rs, v) && HoldsOnly(rs, v)
    ensures HoldsIds(rs + [r], ApplyRecord(v, r)) && HoldsOnly(rs + [r], ApplyRecord(v, r))
  {
    var all := rs + [r];
    assert all[|rs|] == r && forall i :: 0 <= i < |rs| ==> all[i] == rs[i];
  }

  lemma ApplyHoldsLast(rs: seq<Record>, v: View, r: Record)
    requires HoldsIds(rs, v) && HoldsLast(rs, v)
    ensures HoldsLast(rs + [r], ApplyRecord(v, r))
  {
    var (all, v') := (rs + [r], ApplyRecord(v, r));
    assert all[|rs|] == r && forall i :: 0 <= i < |rs| ==> all[i] == rs[i];
    forall i | IsLast(all, i) && all[i].id in v'.entries
      ensures Some(all[i]) == if all[i].Reserve? then v'.entries[all[i].id].reserve else v'.entries[all[i].id].settle
    {
      if i < |rs| {
        assert IsLast(rs, i);
        assert all[|rs|].id != all[i].id || all[|rs|].Reserve? != all[i].Reserve?;
      }
    }
  }

  lemma FirstBeforeGrows(rs: seq<Record>, r: Record, x: Id, y: Id)
    requires FirstBefore(rs, x, y)
    ensures FirstBefore(rs + [r], x, y)
  {
    var i :| 0 <= i < |rs| && rs[i].id == x && forall j :: 0 <= j <= i ==> rs[j].id != y;
    assert (rs + [r])[i].id == x;
  }

  lemma NewComesLast(rs: seq<Record>, v: View, r: Record, x: Id)
    requires HoldsIds(rs, v) && x in v.entries && r.id !in v.entries && r.id != ""
    ensures FirstBefore(rs + [r], x, r.id)
  {
    var i :| 0 <= i < |rs| && rs[i].id == x;
    assert (rs + [r])[i].id == x;
  }

  lemma ApplyFirstCome(rs: seq<Record>, v: View, r: Record)
    requires HoldsIds(rs, v) && WellFormed(v) && FirstComeOrder(rs, v)
    ensures FirstComeOrder(rs + [r], ApplyRecord(v, r))
  {
    var order := ApplyRecord(v, r).order;
    forall a, b | 0 <= a < b < |order| ensures FirstBefore(rs + [r], order[a], order[b]) {
      if b < |v.order| {
        FirstBeforeGrows(rs, r, order[a], order[b]);
      } else {
        NewComesLast(rs, v, r, order[a]);
      }
    }
  }

  /** Whole appends come back as what they say: the last record of each kind for each id, in the
      order the ids first came, and no torn line. */
  lemma {:induction false} ReadsBack(rs: seq<Record>, widths: seq<nat>)
    requires |widths| == |rs| && forall i :: 0 <= i < |rs| ==> widths[i] > 0
    ensures var v := ViewOf(Written(rs, widths));
            && HoldsIds(rs, v) && HoldsLast(rs, v) && HoldsOnly(rs, v)
            && FirstComeOrder(rs, v) && WellFormed(v) && v.torn == 0
            && LineBreak(Written(rs, widths))
  {
    if rs != [] {
      var n := |rs| - 1;
      var log := Written(rs[..n], widths[..n]);
      ReadsBack(rs[..n], widths[..n]);
      ViewAfterAppend(log, rs[n], widths[n]);
      LinesAfterAppend(log, rs[n], widths[n]);
      assert Tail(log) == [];
      assert rs == rs[..n] + [rs[n]];
      ApplyHolds(rs[..n], ViewOf(log), rs[n]);
      ApplyHoldsLast(rs[..n], ViewOf(log), rs[n]);
      ApplyFirstCome(rs[..n], ViewOf(log), rs[n]);
      ApplyKeepsWellFormed(ViewOf(log), rs[n]);
    }
  }

  // ---- lines ---------------------------------------------------------------

  function Joined(lines: seq<Log>): Log {
    if lines == [] then [] else Joined(lines[..|lines| - 1]) + lines[|lines| - 1] + [Newline]
  }

  lemma JoinedSnoc(lines: seq<Log>, line: Log)
    ensures Joined(lines + [line]) == Joined(lines) + line + [Newline]
  {
    assert (lines + [line])[..|lines|] == lines;
  }

  lemma NoTail(log: Log)
    ensures Tail(log + [Newline]) == []
  {
    CompleteEndOf(log + [Newline], |log| + 1);
  }

  lemma LinesWithNewline(log: Log, lines: seq<Log>, tail: Log)
    requires lines == Lines(log) && tail == Tail(log) && Joined(lines) + tail == log
    ensures Lines(log + [Newline]) == lines + [tail] && Tail(log + [Newline]) == []
    ensures Joined(lines + [tail]) + [] == log + [Newline]
  {
    LinesAfterNewline(log);
    NoTail(log);
    JoinedSnoc(lines, tail);
  }

  lemma LinesWithByte(log: Log, lines: seq<Log>, tail: Log, c: Cell)
    requires lines == Lines(log) && tail == Tail(log) && Joined(lines) + tail == log && c != Newline
    ensures Lines(log + [c]) == lines && Tail(log + [c]) == tail + [c]
    ensures Joined(lines) + (tail + [c]) == log + [c]
  {
    TailAfterText(log, [c]);
    Assoc(Joined(lines), tail, [c]);
  }

  /** The lines and the unterminated end are the log, cut at its newlines. */
  lemma {:induction false} LinesAreTheLog(log: Log)
    ensures Joined(Lines(log)) + Tail(log) == log
    ensures forall i :: 0 <= i < |Lines(log)| ==> Newline !in Lines(log)[i]
    ensures Newline !in Tail(log)
    decreases |log|
  {
    if log != [] {
      var (before, c) := (log[..|log| - 1], log[|log| - 1]);
      LinesAreTheLog(before);
      assert log == before + [c];
      if c == Newline {
        LinesWithNewline(before, Lines(before), Tail(before));
      } else {
        LinesWithByte(before, Lines(before), Tail(before), c);
      }
    }
  }

  function Unreadable(): Log -> bool { (line: Log) => line != [] && Parse(line).None? }

  /** The lines that are not empty and do not parse are counted as torn. */
  lemma {:induction false} TornIsCounted(lines: seq<Log>)
    ensures Replay(EmptyView, lines).torn == |Where(lines, Unreadable())|
  {
    if lines != [] {
      TornIsCounted(lines[..|lines| - 1]);
      WhereLast(lines, Unreadable());
    }
  }

  // ---- sums over ids -------------------------------------------------------

  /** The sum of some ids' amounts, in no order. */
  ghost function Total(ids: set<Id>, amounts: map<Id, real>): real
    requires ids <= amounts.Keys
  {
    if ids == {} then 0.0
    else
      var id :| id in ids;
      amounts[id] + Total(ids - {id}, amounts)
  }

  lemma {:induction false} TotalWithout(ids: set<Id>, amounts: map<Id, real>, id: Id)
    requires id in ids && ids <= amounts.Keys
    ensures Total(ids, amounts) == amounts[id] + Total(ids - {id}, amounts)
    decreases ids
  {
    var first :| first in ids && Total(ids, amounts) == amounts[first] + Total(ids - {first}, amounts);
    if first != id {
      TotalWithout(ids - {first}, amounts, id);
      TotalWithout(ids - {id}, amounts, first);
      assert ids - {first} - {id} == ids - {id} - {first};
    }
  }

  /** Entries as the program writes them: one part or both, each of its own kind. */
  predicate Kinds(v: View) {
    forall id :: id in v.entries ==>
      && (v.entries[id].reserve.Some? || v.entries[id].settle.Some?)
      && (v.entries[id].reserve.Some? ==> v.entries[id].reserve.value.Reserve?)
      && (v.entries[id].settle.Some? ==> v.entries[id].settle.value.Settle?)
  }

  /** What each id owes: what it was settled at, and what it reserved until then. */
  function Owed(v: View): map<Id, real>
    requires Kinds(v)
  {
    map id | id in v.entries ::
      var e := v.entries[id]; if e.settle.Some? then e.settle.value.charged else e.reserve.value.amount
  }

  /** The run an id was reserved for, or else settled for. */
  function RunNamed(e: Entry): string
    requires e.reserve.Some? || e.settle.Some?
  {
    if e.reserve.Some? then e.reserve.value.runId else e.settle.value.runId
  }

  function IdsOf(v: View, run: string): set<Id>
    requires Kinds(v)
  {
    set id | id in v.entries && RunNamed(v.entries[id]) == run
  }

  function Spent(v: View, run: string): set<Id>
    requires Kinds(v)
  {
    set id | id in IdsOf(v, run) && v.entries[id].settle.Some?
  }

  function Open(v: View, run: string): set<Id>
    requires Kinds(v)
  {
    IdsOf(v, run) - Spent(v, run)
  }

  lemma {:induction false} ReplayKinds(lines: seq<Log>)
    ensures Kinds(Replay(EmptyView, lines))
  {
    if lines != [] {
      ReplayKinds(lines[..|lines| - 1]);
    }
  }

  /** The ids at the start of the order that a filter takes. */
  function Taken(v: View, f: Filter, n: nat): (ids: set<Id>)
    requires WellFormed(v) && n <= |v.order|
    ensures forall id :: id in ids <==> id in v.order[..n] && Takes(f, id, v.entries[id])
  {
    if n == 0 then {}
    else
      var id := v.order[n - 1];
      assert v.order[..n] == v.order[..n - 1] + [id];
      if Takes(f, id, v.entries[id]) then Taken(v, f, n - 1) + {id} else Taken(v, f, n - 1)
  }

  /** One amount more. */
  lemma TotalWith(ids: set<Id>, amounts: map<Id, real>, id: Id)
    requires id !in ids && ids + {id} <= amounts.Keys
    ensures Total(ids + {id}, amounts) == Total(ids, amounts) + amounts[id]
  {
    TotalWithout(ids + {id}, amounts, id);
    assert ids + {id} - {id} == ids;
  }

  lemma ChargeIsOwed(v: View, id: Id)
    requires Kinds(v) && id in v.entries
    ensures Charge(v.entries[id]) == Owed(v)[id]
  {
  }

  lemma {:induction false} SumIsTotal(v: View, f: Filter, n: nat, owed: map<Id, real>)
    requires WellFormed(v) && Kinds(v) && n <= |v.order| && owed == Owed(v)
    ensures Taken(v, f, n) <= owed.Keys
    ensures Sum(v.order[..n], v.entries, f) == Total(Taken(v, f, n), owed)
  {
    if n > 0 {
      var id := v.order[n - 1];
      SumIsTotal(v, f, n - 1, owed);
      SumSnoc(v, f, n);
      ChargeIsOwed(v, id);
      assert id !in v.order[..n - 1];
      if Takes(f, id, v.entries[id]) {
        TotalWith(Taken(v, f, n - 1), owed, id);
      }
    }
  }

  lemma SumSnoc(v: View, f: Filter, n: nat)
    requires WellFormed(v) && 0 < n <= |v.order|
    ensures Sum(v.order[..n], v.entries, f)
         == Sum(v.order[..n - 1], v.entries, f) + Share(f, v.order[n - 1], v.entries[v.order[n - 1]])
  {
    assert v.order[..n][..n - 1] == v.order[..n - 1];
  }

  function OpenAmong(v: View, ids: set<Id>): set<Id> { set id | id in ids && EntryAt(v.entries, id).settle.None? }

  lemma CountSnoc(v: View, f: Filter, n: nat)
    requires WellFormed(v) && 0 < n <= |v.order|
    ensures var id := v.order[n - 1];
            CountOpen(v.order[..n], v.entries, f)
            == CountOpen(v.order[..n - 1], v.entries, f) + (if OpenIn(f, id, v.entries[id]) then 1 else 0)
  {
    assert v.order[..n][..n - 1] == v.order[..n - 1];
  }

  lemma {:induction false} OpenIsCounted(v: View, f: Filter, n: nat)
    requires WellFormed(v) && n <= |v.order|
    ensures CountOpen(v.order[..n], v.entries, f) == |OpenAmong(v, Taken(v, f, n))|
  {
    if n > 0 {
      OpenIsCounted(v, f, n - 1);
      CountSnoc(v, f, n);
      assert v.order[n - 1] !in v.order[..n - 1];
      OpenWith(v, Taken(v, f, n - 1), v.order[n - 1]);
    }
  }

  lemma OpenWith(v: View, ids: set<Id>, id: Id)
    requires id !in ids
    ensures |OpenAmong(v, ids + {id})|
         == |OpenAmong(v, ids)| + (if EntryAt(v.entries, id).settle.None? then 1 else 0)
  {
    assert OpenAmong(v, ids + {id})
        == if EntryAt(v.entries, id).settle.None? then OpenAmong(v, ids) + {id} else OpenAmong(v, ids);
  }

  lemma AllTaken(v: View, f: Filter, ids: set<Id>)
    requires WellFormed(v) && ids <= v.entries.Keys
    requires forall id :: id in v.entries ==> (id in ids <==> Takes(f, id, v.entries[id]))
    ensures Taken(v, f, |v.order|) == ids
  {
    assert v.order[..|v.order|] == v.order;
  }

  lemma SumOfAll(v: View, f: Filter, ids: set<Id>)
    requires WellFormed(v) && Kinds(v) && ids <= v.entries.Keys
    requires forall id :: id in v.entries ==> (id in ids <==> Takes(f, id, v.entries[id]))
    ensures Sum(v.order, v.entries, f) == Total(ids, Owed(v))
    ensures CountOpen(v.order, v.entries, f) == |OpenAmong(v, ids)|
  {
    var n := |v.order|;
    AllTaken(v, f, ids);
    SumIsTotal(v, f, n, Owed(v));
    OpenIsCounted(v, f, n);
    assert v.order[..n] == v.order;
  }

  /** The ledger's four sums, by the ids. */
  lemma SumsAreTotals(v: View, run: string)
    requires WellFormed(v) && Kinds(v)
    ensures Sum(v.order, v.entries, All) == Total(v.entries.Keys, Owed(v))
    ensures Sum(v.order, v.entries, OfRun(run)) == Total(IdsOf(v, run), Owed(v))
    ensures Sum(v.order, v.entries, SettledOf(run)) == Total(Spent(v, run), Owed(v))
    ensures CountOpen(v.order, v.entries, OfRun(run)) == |Open(v, run)|
  {
    SumOfAll(v, All, v.entries.Keys);
    SumOfAll(v, OfRun(run), IdsOf(v, run));
    SumOfAll(v, SettledOf(run), Spent(v, run));
    assert OpenAmong(v, IdsOf(v, run)) == Open(v, run);
  }

  // ---- when a request is admitted ------------------------------------------

  /** Over the cap it is a budget stop. Within it, it is granted exactly when the run's settled
      charges are below the run cap and fewer than four of its ids are open; else the run is
      capped. What its open ids reserved does not count against the run cap. */
  lemma AdmittedWhen(v: View, cap: real, runCap: real, run: string, amount: real)
    requires WellFormed(v) && Kinds(v)
    ensures var refusal := Decide(v, cap, runCap, run, amount);
            && (refusal == Some(BudgetStop) <==> Total(v.entries.Keys, Owed(v)) + amount > cap)
            && (refusal == None <==>
                  && Total(v.entries.Keys, Owed(v)) + amount <= cap
                  && Total(Spent(v, run), Owed(v)) < runCap
                  && |Open(v, run)| < 4)
  {
    SumsAreTotals(v, run);
  }

  /** A run that has settled nothing is only held to the cap and to four open requests, however
      much those reserved. */
  lemma NothingSpent(v: View, cap: real, runCap: real, run: string, amount: real)
    requires WellFormed(v) && Kinds(v) && runCap > 0.0 && |Open(v, run)| < 4
    requires forall id :: id in v.entries && RunNamed(v.entries[id]) == run ==> v.entries[id].settle.None?
    ensures Decide(v, cap, runCap, run, amount)
         == if Total(v.entries.Keys, Owed(v)) + amount > cap then Some(BudgetStop) else None
  {
    assert Spent(v, run) == {};
    AdmittedWhen(v, cap, runCap, run, amount);
  }
}
