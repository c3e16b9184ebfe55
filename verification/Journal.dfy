/** eval/crazeeval/capture.py: the run's journal. `CaptureWriter` appends the lines of many
    requests as they happen; `assemble` puts each request back together. */
module Journals {
  import opened Common
  import opened JsonTrees

  type Dict = map<string, Json>

  /** One decoded journal line, without its `kind`. `Record`: a record whole in one line (kind
      "record", null or absent). The other kinds name a request by its `seq`. */
  datatype Line =
    | NotObject
    | Record(fields: Dict)
    | Start(seqNo: int, fields: Dict)
    | Events(seqNo: int, events: seq<Json>)
    | End(seqNo: int, fields: Dict, response: Dict)
    | OtherKind(seqNo: int)

  datatype Response = Response(events: Option<seq<Json>>, others: Dict)

  /** An assembled record. `fields` and `others` hold what is not named apart. */
  datatype Rec =
    | Plain(fields: Dict)
    | Request(seqNo: int, fields: Dict, response: Option<Response>, incomplete: bool)

  datatype Key = RecordAt(n: nat) | Seq(s: int)

  const EVENTS_PER_LINE := 256

  // ---- specification: assembling -------------------------------------------

  /** `r["response"]`, or the empty one `setdefault` puts there. */
  function ResponseOf(r: Option<Response>): Response { if r.Some? then r.value else Response(None, map[]) }

  function KeptEvents(r: Option<Response>): seq<Json> {
    if r.Some? && r.value.events.Some? then r.value.events.value else []
  }

  /** The key a line's record goes by, after `n` records. */
  function KeyOf(line: Line, n: nat): Option<Key> {
    match line
    case NotObject => None
    case Record(_) => Some(RecordAt(n))
    case Start(s, _) => Some(Seq(s))
    case Events(s, _) => Some(Seq(s))
    case End(s, _, _) => Some(Seq(s))
    case OtherKind(s) => Some(Seq(s))
  }

  /** A record before any of its lines. */
  function Blank(key: Key): Rec {
    match key
    case RecordAt(_) => Plain(map[])
    case Seq(s) => Request(s, map[], None, true)
  }

  function ApplyLine(r: Rec, line: Line): Rec {
    match line
    case Record(fields) => Plain(fields)
    case Start(_, fields) => r.(fields := r.fields + fields)
    case Events(_, evs) =>
      if r.Request?
      then r.(response := Some(ResponseOf(r.response).(events := Some(KeptEvents(r.response) + evs))))
      else r
    case End(_, fields, response) =>
      if r.Request?
      then r.(fields := r.fields + fields, incomplete := false,
              response := Some(ResponseOf(r.response).(others := ResponseOf(r.response).others + response)))
      else r
    case NotObject => r
    case OtherKind(_) => r
  }

  /** The keys of the records, in the order of their first lines. */
  function Keys(lines: seq<Line>): seq<Key> {
    if lines == [] then []
    else
      var ks := Keys(lines[..|lines| - 1]);
      var k := KeyOf(lines[|lines| - 1], |ks|);
      if k.None? || k.value in ks then ks else ks + [k.value]
  }

  /** The record that a key's own lines build, whatever stands between them. */
  function RecordOf(lines: seq<Line>, key: Key): Rec {
    if lines == [] then Blank(key)
    else
      var before := lines[..|lines| - 1];
      if KeyOf(lines[|lines| - 1], |Keys(before)|) == Some(key)
      then ApplyLine(RecordOf(before, key), lines[|lines| - 1])
      else RecordOf(before, key)
  }

  function Assembled(lines: seq<Line>): (rs: seq<Rec>)
    ensures |rs| == |Keys(lines)|
  {
    var ks := Keys(lines);
    seq(|ks|, i requires 0 <= i < |ks| => RecordOf(lines, ks[i]))
  }

  lemma {:induction false} KeysWellFormed(lines: seq<Line>)
    ensures forall i :: 0 <= i < |Keys(lines)| && Keys(lines)[i].RecordAt? ==> Keys(lines)[i].n == i
    ensures forall i, j :: 0 <= i < j < |Keys(lines)| ==> Keys(lines)[i] != Keys(lines)[j]
  {
    if lines != [] {
      KeysWellFormed(lines[..|lines| - 1]);
    }
  }

  /** A record number not given out yet names no record. */
  lemma NextRecordIsNew(lines: seq<Line>, n: nat)
    requires |Keys(lines)| <= n
    ensures RecordAt(n) !in Keys(lines)
  {
    KeysWellFormed(lines);
  }

  lemma {:induction false} UnseenIsBlank(lines: seq<Line>, key: Key)
    ensures key !in Keys(lines) ==> RecordOf(lines, key) == Blank(key)
  {
    if lines != [] {
      UnseenIsBlank(lines[..|lines| - 1], key);
    }
  }

  lemma {:induction false} RecordKinds(lines: seq<Line>, key: Key)
    ensures key.Seq? ==> RecordOf(lines, key).Request? && RecordOf(lines, key).seqNo == key.s
    ensures key.RecordAt? ==> RecordOf(lines, key).Plain?
  {
    if lines != [] {
      RecordKinds(lines[..|lines| - 1], key);
    }
  }

  /** `assemble`: the loop over the lines, with its dict of records and their order. */
  method Assemble(lines: seq<Line>) returns (out: seq<Rec>)
    ensures out == Assembled(lines)
  {
    var recs: map<Key, Rec> := map[];
    var order: seq<Key> := [];
    var i := 0;
    while i < |lines|
      invariant 0 <= i <= |lines|
      invariant order == Keys(lines[..i])
      invariant forall k :: k in recs <==> k in order
      invariant forall k :: k in order ==> recs[k] == RecordOf(lines[..i], k)
    {
      assert lines[..i + 1][..i] == lines[..i];
      var obj := lines[i];
      if obj.Record? {
        NextRecordIsNew(lines[..i], |order|);
        var key := RecordAt(|order|);
        recs := recs[key := Plain(obj.fields)];
        order := order + [key];
      } else if !obj.NotObject? {
        var key := Seq(obj.seqNo);
        UnseenIsBlank(lines[..i], key);
        RecordKinds(lines[..i], key);
        if key !in recs {
          recs := recs[key := Request(obj.seqNo, map[], None, true)];
          order := order + [key];
        }
        var r := recs[key];
        if obj.Start? {
          r := r.(fields := r.fields + obj.fields);
        } else if obj.Events? {
          r := r.(response := Some(ResponseOf(r.response).(events := Some(KeptEvents(r.response) + obj.events))));
        } else if obj.End? {
          var response := ResponseOf(r.response);
          r := r.(fields := r.fields + obj.fields,
                  response := Some(response.(others := response.others + obj.response)),
                  incomplete := false);
        }
        recs := recs[key := r];
      }
      i := i + 1;
    }
    assert lines[..i] == lines;
    out := seq(|order|, j requires 0 <= j < |order| && order[j] in recs => recs[order[j]]);
  }

  // ---- the writer ----------------------------------------------------------

  /** The lines of a batch of events: at most 256 events each. */
  function Batches(s: int, events: seq<Json>): seq<Line> {
    if events == [] then []
    else if |events| <= EVENTS_PER_LINE then [Events(s, events)]
    else [Events(s, events[..EVENTS_PER_LINE])] + Batches(s, events[EVENTS_PER_LINE..])
  }

  /** `plain` is capture.jsonl, moved into `zipped` when the run ends; `late` lies beside. */
  class CaptureWriter {
    var plain: seq<Line>
    var zipped: seq<Line>
    var late: seq<Line>
    var closed: bool

    /** What `read_capture` reads back: the gzip or the plain journal, then the late lines. */
    ghost function Written(): seq<Line> reads this { (if closed then zipped else plain) + late }

    ghost predicate Valid() reads this { !closed ==> late == [] }

    constructor ()
      ensures Valid() && Written() == [] && !closed
    {
      plain, zipped, late, closed := [], [], [], false;
    }

    method Write(line: Line)
      requires Valid()
      modifies this`plain, this`late
      ensures Valid() && Written() == old(Written()) + [line]
    {
      if closed {
        late := late + [line];
        return;
      }
      plain := plain + [line];
    }

    method WriteEvents(s: int, events: seq<Json>)
      requires Valid()
      modifies this`plain, this`late
      ensures Valid() && Written() == old(Written()) + Batches(s, events)
    {
      var i := 0;
      ghost var left := events;
      while i < |events|
        invariant 0 <= i && Valid() && left == events[Min(i, |events|)..]
        invariant old(Written()) + Batches(s, events) == Written() + Batches(s, left)
      {
        var upTo := Min(i + EVENTS_PER_LINE, |events|);
        BatchHead(s, left);
        assert left[..upTo - i] == events[i..upTo] && left[upTo - i..] == events[upTo..];
        Assoc(Written(), [Events(s, events[i..upTo])], Batches(s, events[upTo..]));
        left := events[upTo..];
        Write(Events(s, events[i..upTo]));
        i := i + EVENTS_PER_LINE;
      }
    }

    method Close()
      requires Valid()
      modifies this
      ensures Valid() && closed && Written() == old(Written())
    {
      if closed {
        return;
      }
      closed := true;
      zipped, plain := plain, [];
    }
  }

  lemma BatchHead(s: int, events: seq<Json>)
    requires events != []
    ensures var n := Min(EVENTS_PER_LINE, |events|);
            Batches(s, events) == [Events(s, events[..n])] + Batches(s, events[n..])
  {
    if |events| <= EVENTS_PER_LINE {
      assert events[..|events|] == events;
    }
  }

  /** The events of some lines, together. */
  function EventsIn(lines: seq<Line>): seq<Json> {
    if lines == [] then []
    else (if lines[0].Events? then lines[0].events else []) + EventsIn(lines[1..])
  }

  /** A batch's lines carry its events, in order, 256 to a line and the rest in the last. */
  lemma {:induction false} BatchesFit(s: int, events: seq<Json>)
    ensures var lines := Batches(s, events);
            && EventsIn(lines) == events
            && (forall i :: 0 <= i < |lines| ==> lines[i].Events? && lines[i].seqNo == s)
            && (forall i :: 0 <= i < |lines| - 1 ==> |lines[i].events| == 256)
            && (lines != [] ==> 0 < |lines[|lines| - 1].events| <= 256)
    decreases |events|
  {
    if events != [] {
      var n := Min(EVENTS_PER_LINE, |events|);
      var more := Batches(s, events[n..]);
      BatchHead(s, events);
      BatchesFit(s, events[n..]);
      assert ([Events(s, events[..n])] + more)[1..] == more;
      assert events[..n] + events[n..] == events;
    }
  }

  // ---- a run's journal -----------------------------------------------------

  /** What the proxy journals: a refusal, a request's start, some of its stream, its end. */
  datatype Op =
    | Refuse(fields: Dict)
    | Begin(s: int, fields: Dict)
    | Stream(s: int, events: seq<Json>)
    | Finish(s: int, fields: Dict, response: Dict)

  function LinesOf(op: Op): seq<Line> {
    match op
    case Refuse(fields) => [Record(fields)]
    case Begin(s, fields) => [Start(s, fields)]
    case Stream(s, events) => Batches(s, events)
    case Finish(s, fields, response) => [End(s, fields, response)]
  }

  function Journal(ops: seq<Op>): seq<Line> {
    if ops == [] then [] else Journal(ops[..|ops| - 1]) + LinesOf(ops[|ops| - 1])
  }

  predicate Begun(ops: seq<Op>, s: int) {
    ops != [] && (Begun(ops[..|ops| - 1], s) || (ops[|ops| - 1].Begin? && ops[|ops| - 1].s == s))
  }

  predicate Finished(ops: seq<Op>, s: int) {
    ops != [] && (Finished(ops[..|ops| - 1], s) || (ops[|ops| - 1].Finish? && ops[|ops| - 1].s == s))
  }

  /** Requests interleave in any way; each begins once, under a seq of its own, streams while
      it is open, and ends at most once. */
  predicate Interleaving(ops: seq<Op>) {
    ops == [] ||
    var (before, op) := (ops[..|ops| - 1], ops[|ops| - 1]);
    Interleaving(before)
    && match op
       case Refuse(_) => true
       case Begin(s, _) => !Begun(before, s)
       case Stream(s, _) => Begun(before, s) && !Finished(before, s)
       case Finish(s, _, _) => Begun(before, s) && !Finished(before, s)
  }

  /** Every event a request streamed, in order. */
  function Streamed(ops: seq<Op>, s: int): seq<Json> {
    if ops == [] then []
    else
      var (earlier, op) := (Streamed(ops[..|ops| - 1], s), ops[|ops| - 1]);
      if op.Stream? && op.s == s then earlier + op.events else earlier
  }

  /** What a request's end laid over its start. */
  function FinishFields(ops: seq<Op>, s: int): Dict {
    if ops == [] then map[]
    else if ops[|ops| - 1].Finish? && ops[|ops| - 1].s == s then ops[|ops| - 1].fields
    else FinishFields(ops[..|ops| - 1], s)
  }

  function FinishResponse(ops: seq<Op>, s: int): Dict {
    if ops == [] then map[]
    else if ops[|ops| - 1].Finish? && ops[|ops| - 1].s == s then ops[|ops| - 1].response
    else FinishResponse(ops[..|ops| - 1], s)
  }

  /** The record a refusal or a beginning request should come back as. */
  function Outcome(ops: seq<Op>, opener: Op): Rec
    requires opener.Refuse? || opener.Begin?
  {
    if opener.Refuse? then Plain(opener.fields)
    else
      var (events, ended) := (Streamed(ops, opener.s), Finished(ops, opener.s));
      Request(opener.s, opener.fields + FinishFields(ops, opener.s),
              if events == [] && !ended then None
              else Some(Response(if events == [] then None else Some(events), FinishResponse(ops, opener.s))),
              !ended)
  }

  /** The refusals and the beginnings, in order. */
  function Openers(ops: seq<Op>): (r: seq<Op>)
    ensures forall i :: 0 <= i < |r| ==> r[i].Refuse? || r[i].Begin?
  {
    if ops == [] then []
    else
      var (earlier, op) := (Openers(ops[..|ops| - 1]), ops[|ops| - 1]);
      if op.Refuse? || op.Begin? then earlier + [op] else earlier
  }

  function KeyOfOpener(opener: Op, n: nat): Key
    requires opener.Refuse? || opener.Begin?
  {
    if opener.Refuse? then RecordAt(n) else Seq(opener.s)
  }

  /** The lines assemble into the records of the operations, opener by opener. */
  ghost predicate Restores(lines: seq<Line>, ops: seq<Op>) { RestoresAll(lines, ops, Openers(ops)) }

  predicate AreOpeners(os: seq<Op>) { forall i :: 0 <= i < |os| ==> os[i].Refuse? || os[i].Begin? }

  ghost predicate RestoresAll(lines: seq<Line>, ops: seq<Op>, os: seq<Op>)
    requires AreOpeners(os)
  {
    && |Keys(lines)| == |os|
    && (forall i :: 0 <= i < |os| ==> Keys(lines)[i] == KeyOfOpener(os[i], i))
    && (forall i :: 0 <= i < |os| ==> RecordOf(lines, KeyOfOpener(os[i], i)) == Outcome(ops, os[i]))
  }

  lemma OneLine(lines: seq<Line>, line: Line, key: Key)
    ensures var k := KeyOf(line, |Keys(lines)|);
            && Keys(lines + [line])
               == (if k.None? || k.value in Keys(lines) then Keys(lines) else Keys(lines) + [k.value])
            && RecordOf(lines + [line], key)
               == (if k == Some(key) then ApplyLine(RecordOf(lines, key), line) else RecordOf(lines, key))
  {
    assert (lines + [line])[..|lines|] == lines;
  }

  /** More of one request's stream changes that request's events and nothing else. */
  lemma {:induction false} BatchesAssemble(lines: seq<Line>, s: int, events: seq<Json>, key: Key)
    requires Seq(s) in Keys(lines)
    ensures Keys(lines + Batches(s, events)) == Keys(lines)
    ensures var r := RecordOf(lines, key);
            RecordOf(lines + Batches(s, events), key)
            == if key == Seq(s) && events != [] then ApplyLine(r, Events(s, events)) else r
    decreases |events|
  {
    if events == [] {
      assert lines + [] == lines;
    } else {
      var n := Min(EVENTS_PER_LINE, |events|);
      var (head, more) := (Events(s, events[..n]), Batches(s, events[n..]));
      BatchHead(s, events);
      Assoc(lines, [head], more);
      assert (lines + [head])[..|lines|] == lines;
      BatchesAssemble(lines + [head], s, events[n..], key);
      RecordKinds(lines, key);
      assert events[..n] + events[n..] == events;
      assert events[n..] == [] ==> events[..n] == events;
      if key.Seq? {
        Assoc(KeptEvents(RecordOf(lines, key).response), events[..n], events[n..]);
      }
    }
  }

  /** A request has a record exactly when it began. */
  lemma {:induction false} BegunHasRecord(ops: seq<Op>, s: int)
    requires Interleaving(ops)
    ensures Begun(ops, s) <==> Seq(s) in Keys(Journal(ops))
  {
    if ops != [] {
      var (before, op) := (ops[..|ops| - 1], ops[|ops| - 1]);
      BegunHasRecord(before, s);
      if op.Stream? {
        BegunHasRecord(before, op.s);
        BatchesAssemble(Journal(before), op.s, op.events, Seq(s));
      } else {
        OneLine(Journal(before), LinesOf(op)[0], Seq(s));
        if op.Finish? {
          BegunHasRecord(before, op.s);
        }
      }
    }
  }

  lemma {:induction false} UnbegunIsSilent(ops: seq<Op>, s: int)
    requires Interleaving(ops)
    ensures !Begun(ops, s) ==> !Finished(ops, s)
    ensures !Begun(ops, s) ==> Streamed(ops, s) == []
  {
    if ops == [] {
      assert !Finished(ops, s);
    } else {
      var (before, op) := (ops[..|ops| - 1], ops[|ops| - 1]);
      UnbegunIsSilent(before, s);
      assert op.Stream? || op.Finish? ==> Begun(before, op.s);
      assert Begun(before, s) ==> Begun(ops, s);
    }
  }

  lemma {:induction false} UnfinishedHasNoEnd(ops: seq<Op>, s: int)
    ensures !Finished(ops, s) ==> FinishFields(ops, s) == map[] && FinishResponse(ops, s) == map[]
  {
    if ops != [] {
      UnfinishedHasNoEnd(ops[..|ops| - 1], s);
    }
  }

  /** What one more operation does to the record of an earlier opener. */
  lemma OutcomeAfter(before: seq<Op>, op: Op, opener: Op)
    requires opener.Refuse? || opener.Begin?
    requires op.Finish? ==> !Finished(before, op.s)
    requires op.Stream? ==> !Finished(before, op.s)
    ensures var (was, own) := (Outcome(before, opener), opener.Begin? && !op.Refuse? && opener.s == op.s);
            Outcome(before + [op], opener)
            == if own && op.Stream? && op.events != [] then ApplyLine(was, Events(op.s, op.events))
               else if own && op.Finish? then ApplyLine(was, End(op.s, op.fields, op.response))
               else was
  {
    assert (before + [op])[..|before|] == before;
    if opener.Begin? {
      UnfinishedHasNoEnd(before, opener.s);
      assert opener.fields + map[] == opener.fields;
      if op.Stream? {
        assert Streamed(before, op.s) + [] == Streamed(before, op.s);
        assert [] + op.events == op.events;
      } else if op.Finish? {
        assert map[] + op.response == op.response;
      }
    }
  }

  lemma OpenersAppend(before: seq<Op>, op: Op)
    ensures Openers(before + [op]) == if op.Refuse? || op.Begin? then Openers(before) + [op] else Openers(before)
    ensures Journal(before + [op]) == Journal(before) + LinesOf(op)
  {
    assert (before + [op])[..|before|] == before;
  }

  /** An opener's own outcome, before anything else of its request. */
  lemma OutcomeOfNew(before: seq<Op>, op: Op)
    requires op.Refuse? || op.Begin?
    requires Interleaving(before) && (op.Begin? ==> !Begun(before, op.s))
    ensures Outcome(before + [op], op)
            == if op.Refuse? then Plain(op.fields) else Request(op.s, op.fields, None, true)
  {
    assert (before + [op])[..|before|] == before;
    if op.Begin? {
      UnbegunIsSilent(before, op.s);
      UnfinishedHasNoEnd(before, op.s);
      assert op.fields + map[] == op.fields;
    }
  }

  /** A refusal or a beginning leaves every earlier record as it was. */
  lemma EarlierRecordsStay(before: seq<Op>, op: Op, i: nat)
    requires op.Refuse? || op.Begin?
    requires Restores(Journal(before), before) && Interleaving(before + [op]) && i < |Openers(before)|
    ensures var opener := Openers(before)[i];
            RecordOf(Journal(before) + LinesOf(op), KeyOfOpener(opener, i)) == Outcome(before + [op], opener)
  {
    var (lines, opener) := (Journal(before), Openers(before)[i]);
    assert (before + [op])[..|before|] == before;
    assert Keys(lines)[i] == KeyOfOpener(opener, i);
    OneLine(lines, LinesOf(op)[0], KeyOfOpener(opener, i));
    OutcomeAfter(before, op, opener);
    if op.Begin? {
      BegunHasRecord(before, op.s);
    }
  }

  lemma NewRecordAppears(before: seq<Op>, op: Op)
    requires op.Refuse? || op.Begin?
    requires Restores(Journal(before), before) && Interleaving(before + [op])
    ensures var (lines, key) := (Journal(before), KeyOfOpener(op, |Openers(before)|));
            && Keys(lines + LinesOf(op)) == Keys(lines) + [key]
            && RecordOf(lines + LinesOf(op), key) == Outcome(before + [op], op)
  {
    var (lines, key) := (Journal(before), KeyOfOpener(op, |Openers(before)|));
    assert (before + [op])[..|before|] == before;
    NextRecordIsNew(lines, |Keys(lines)|);
    if op.Begin? {
      BegunHasRecord(before, op.s);
      assert map[] + op.fields == op.fields;
    }
    UnseenIsBlank(lines, key);
    OneLine(lines, LinesOf(op)[0], key);
    OutcomeOfNew(before, op);
  }

  lemma OneMoreRestores(all: seq<Line>, ops: seq<Op>, os: seq<Op>, op: Op, keys: seq<Key>)
    requires AreOpeners(os) && (op.Refuse? || op.Begin?)
    requires |keys| == |os| && Keys(all) == keys + [KeyOfOpener(op, |os|)]
    requires forall i :: 0 <= i < |os| ==> keys[i] == KeyOfOpener(os[i], i)
    requires forall i :: 0 <= i < |os| ==> RecordOf(all, KeyOfOpener(os[i], i)) == Outcome(ops, os[i])
    requires RecordOf(all, KeyOfOpener(op, |os|)) == Outcome(ops, op)
    ensures RestoresAll(all, ops, os + [op])
  {
  }

  lemma OpenerRestores(before: seq<Op>, op: Op)
    requires op.Refuse? || op.Begin?
    requires Restores(Journal(before), before) && Interleaving(before + [op])
    ensures RestoresAll(Journal(before) + LinesOf(op), before + [op], Openers(before) + [op])
  {
    var (all, os) := (Journal(before) + LinesOf(op), Openers(before));
    NewRecordAppears(before, op);
    forall i | 0 <= i < |os|
      ensures RecordOf(all, KeyOfOpener(os[i], i)) == Outcome(before + [op], os[i])
    {
      EarlierRecordsStay(before, op, i);
    }
    OneMoreRestores(all, before + [op], os, op, Keys(Journal(before)));
  }

  lemma StreamRestores(before: seq<Op>, op: Op)
    requires op.Stream? || op.Finish?
    requires Restores(Journal(before), before) && Interleaving(before + [op])
    ensures Restores(Journal(before + [op]), before + [op])
  {
    var (lines, os) := (Journal(before), Openers(before));
    assert (before + [op])[..|before|] == before;
    OpenersAppend(before, op);
    BegunHasRecord(before, op.s);
    forall i | 0 <= i < |os|
      ensures RecordOf(lines + LinesOf(op), KeyOfOpener(os[i], i)) == Outcome(before + [op], os[i])
    {
      OutcomeAfter(before, op, os[i]);
      if op.Stream? {
        BatchesAssemble(lines, op.s, op.events, KeyOfOpener(os[i], i));
      } else {
        OneLine(lines, LinesOf(op)[0], KeyOfOpener(os[i], i));
      }
    }
    if op.Stream? {
      BatchesAssemble(lines, op.s, op.events, Seq(op.s));
    } else {
      OneLine(lines, LinesOf(op)[0], Seq(op.s));
    }
  }

  lemma {:induction false} JournalRestores(ops: seq<Op>)
    requires Interleaving(ops)
    ensures Restores(Journal(ops), ops)
  {
    if ops != [] {
      var (before, op) := (ops[..|ops| - 1], ops[|ops| - 1]);
      assert ops == before + [op];
      JournalRestores(before);
      if op.Refuse? || op.Begin? {
        OpenerRestores(before, op);
        OpenersAppend(before, op);
      } else {
        StreamRestores(before, op);
      }
    }
  }

  /** However the requests' lines interleave, the journal assembles into one record for each
      refusal and each request, in the order they came, each request with its own start and
      end laid together and exactly its own events in order. */
  lemma RoundTrip(ops: seq<Op>)
    requires Interleaving(ops)
    ensures |Assembled(Journal(ops))| == |Openers(ops)|
    ensures forall i :: 0 <= i < |Openers(ops)| ==> Assembled(Journal(ops))[i] == Outcome(ops, Openers(ops)[i])
  {
    JournalRestores(ops);
  }

  // ---- a journal cut short -------------------------------------------------

  /** `s` has its end line. */
  predicate Ended(lines: seq<Line>, s: int) {
    exists i :: 0 <= i < |lines| && lines[i].End? && lines[i].seqNo == s
  }

  lemma EndedConcat(a: seq<Line>, b: seq<Line>, s: int)
    ensures Ended(a + b, s) <==> Ended(a, s) || Ended(b, s)
  {
    var all := a + b;
    assert forall i :: 0 <= i < |a| ==> all[i] == a[i];
    assert forall i :: 0 <= i < |b| ==> all[|a| + i] == b[i];
  }

  lemma {:induction false} BatchesEndNothing(t: int, events: seq<Json>, s: int)
    ensures !Ended(Batches(t, events), s)
    decreases |events|
  {
    if |events| > EVENTS_PER_LINE {
      BatchesEndNothing(t, events[EVENTS_PER_LINE..], s);
      EndedConcat([Events(t, events[..EVENTS_PER_LINE])], Batches(t, events[EVENTS_PER_LINE..]), s);
    }
  }

  /** A request's end line is there exactly when it finished. */
  lemma {:induction false} EndedIsFinished(ops: seq<Op>, s: int)
    ensures Ended(Journal(ops), s) <==> Finished(ops, s)
  {
    if ops != [] {
      var (before, op) := (ops[..|ops| - 1], ops[|ops| - 1]);
      EndedIsFinished(before, s);
      EndedConcat(Journal(before), LinesOf(op), s);
      if op.Stream? {
        BatchesEndNothing(op.s, op.events, s);
      } else {
        assert Ended(LinesOf(op), s) <==> LinesOf(op)[0].End? && LinesOf(op)[0].seqNo == s;
      }
    }
  }

  /** The first n lines of a batch hold its first 256 n events, or all. */
  lemma {:induction false} CutBatches(s: int, events: seq<Json>, n: nat) returns (m: nat)
    requires n <= |Batches(s, events)|
    ensures m == Min(EVENTS_PER_LINE * n, |events|) && Batches(s, events[..m]) == Batches(s, events)[..n]
    decreases |events|
  {
    m := Min(EVENTS_PER_LINE * n, |events|);
    if n == 0 {
      assert events[..0] == [];
    } else if |events| <= EVENTS_PER_LINE {
      assert events[..|events|] == events;
    } else {
      var (head, rest) := (events[..EVENTS_PER_LINE], events[EVENTS_PER_LINE..]);
      var m' := CutBatches(s, rest, n - 1);
      assert events[..m][..Min(EVENTS_PER_LINE, m)] == head;
      assert events[..m][EVENTS_PER_LINE..] == rest[..m'];
      BatchHead(s, events[..m]);
    }
  }

  /** `cut` is what had happened of `ops` by some moment: the first k operations and, of the
      next, a stream's first m events. */
  predicate IsCut(cut: seq<Op>, ops: seq<Op>, k: nat, m: nat) {
    k <= |ops|
    && (cut == ops[..k]
        || (k < |ops| && ops[k].Stream? && m <= |ops[k].events|
            && cut == ops[..k] + [Stream(ops[k].s, ops[k].events[..m])]))
  }

  lemma CutStream(before: seq<Op>, op: Op, n: nat) returns (cut: seq<Op>, m: nat)
    requires Interleaving(before + [op]) && op.Stream? && n <= |LinesOf(op)|
    ensures m <= |op.events| && cut == before + [Stream(op.s, op.events[..m])]
    ensures Interleaving(cut) && Journal(cut) == Journal(before) + LinesOf(op)[..n]
  {
    m := CutBatches(op.s, op.events, n);
    cut := before + [Stream(op.s, op.events[..m])];
    assert (before + [op])[..|before|] == before && cut[..|before|] == before;
  }

  /** A cut in the lines of the last operation, which is then a stream. */
  lemma CutLastOp(ops: seq<Op>, n: nat) returns (cut: seq<Op>, k: nat, m: nat)
    requires ops != [] && Interleaving(ops) && |Journal(ops[..|ops| - 1])| < n < |Journal(ops)|
    ensures Interleaving(cut) && Journal(cut) == Journal(ops)[..n] && IsCut(cut, ops, k, m)
  {
    var (before, op) := (ops[..|ops| - 1], ops[|ops| - 1]);
    var lines := Journal(before);
    assert ops == before + [op];
    k := |before|;
    cut, m := CutStream(before, op, n - |lines|);
    CutLast(before, op, m);
    assert (lines + LinesOf(op))[..n] == lines + LinesOf(op)[..n - |lines|];
  }

  /** The first n lines are the whole journal of what had happened by then. */
  lemma {:induction false} CutJournal(ops: seq<Op>, n: nat) returns (cut: seq<Op>, k: nat, m: nat)
    requires Interleaving(ops) && n <= |Journal(ops)|
    ensures Interleaving(cut) && Journal(cut) == Journal(ops)[..n] && IsCut(cut, ops, k, m)
    decreases |ops|
  {
    if n == |Journal(ops)| {
      cut, k, m := ops, |ops|, 0;
      assert Journal(ops)[..n] == Journal(ops) && ops[..|ops|] == ops;
    } else if n <= |Journal(ops[..|ops| - 1])| {
      var (before, op) := (ops[..|ops| - 1], ops[|ops| - 1]);
      cut, k, m := CutJournal(before, n);
      assert (Journal(before) + LinesOf(op))[..n] == Journal(before)[..n];
      CutLater(cut, before, op, k, m);
      assert ops == before + [op];
    } else {
      cut, k, m := CutLastOp(ops, n);
    }
  }

  lemma CutLater(cut: seq<Op>, before: seq<Op>, op: Op, k: nat, m: nat)
    requires IsCut(cut, before, k, m)
    ensures IsCut(cut, before + [op], k, m)
  {
    assert (before + [op])[..k] == before[..k];
  }

  lemma CutLast(before: seq<Op>, op: Op, m: nat)
    requires op.Stream? && m <= |op.events|
    ensures IsCut(before + [Stream(op.s, op.events[..m])], before + [op], |before|, m)
  {
    assert (before + [op])[..|before|] == before;
  }

  /** What had happened by some moment is a start of all that happened, request by request. */
  lemma CutOutcome(cut: seq<Op>, ops: seq<Op>, k: nat, m: nat, s: int)
    requires Interleaving(ops) && Interleaving(cut) && IsCut(cut, ops, k, m)
    ensures Openers(cut) <= Openers(ops) && Streamed(cut, s) <= Streamed(ops, s)
    ensures Finished(cut, s) ==> Finished(ops, s) && Streamed(cut, s) == Streamed(ops, s)
                                 && FinishFields(cut, s) == FinishFields(ops, s)
                                 && FinishResponse(cut, s) == FinishResponse(ops, s)
    ensures !Finished(cut, s) ==> FinishFields(cut, s) == map[] && FinishResponse(cut, s) == map[]
  {
    UnfinishedHasNoEnd(cut, s);
    OpsGrow(ops, k, s);
    if cut == ops[..k] {
    } else {
      assert cut[..k] == ops[..k];
      assert ops[..k + 1][..k] == ops[..k] && ops[..k + 1][k] == ops[k];
      InterleavingPrefix(ops, k + 1);
      OpsGrow(ops, k + 1, s);
    }
  }

  lemma {:induction false} InterleavingPrefix(ops: seq<Op>, k: nat)
    requires Interleaving(ops) && k <= |ops|
    ensures Interleaving(ops[..k])
    decreases |ops|
  {
    if k == |ops| {
      assert ops[..k] == ops;
    } else {
      assert ops[..|ops| - 1][..k] == ops[..k];
      InterleavingPrefix(ops[..|ops| - 1], k);
    }
  }

  lemma {:induction false} OpsGrow(ops: seq<Op>, k: nat, s: int)
    requires Interleaving(ops) && k <= |ops|
    ensures Openers(ops[..k]) <= Openers(ops) && Streamed(ops[..k], s) <= Streamed(ops, s)
    ensures Finished(ops[..k], s) ==> Finished(ops, s) && Streamed(ops[..k], s) == Streamed(ops, s)
                                      && FinishFields(ops[..k], s) == FinishFields(ops, s)
                                      && FinishResponse(ops[..k], s) == FinishResponse(ops, s)
    decreases |ops|
  {
    if k == |ops| {
      assert ops[..k] == ops;
    } else {
      var before := ops[..|ops| - 1];
      assert before[..k] == ops[..k];
      OpsGrow(before, k, s);
    }
  }

  /** What the record of an opener was at some moment, against what it came to be. */
  lemma CutRecord(cut: seq<Op>, ops: seq<Op>, k: nat, m: nat, opener: Op)
    requires Interleaving(ops) && Interleaving(cut) && IsCut(cut, ops, k, m) && opener.Begin?
    ensures var r := Outcome(cut, opener);
            && Streamed(cut, opener.s) <= Streamed(ops, opener.s)
            && (r.incomplete <==> !Ended(Journal(cut), opener.s))
            && (r.incomplete ==> r.fields == opener.fields)
            && (!r.incomplete ==> r == Outcome(ops, opener))
  {
    CutOutcome(cut, ops, k, m, opener.s);
    EndedIsFinished(cut, opener.s);
    assert opener.fields + map[] == opener.fields;
  }

  /** A journal cut after any number of lines assembles to exactly the records of what had
      happened by then (`cut`): the first of the refusals and requests, each request with its
      start line's own fields and the events streamed so far. A record is complete exactly when
      its end line was written, and then it is already what the whole journal gives. */
  lemma AnyPrefix(ops: seq<Op>, n: nat) returns (cut: seq<Op>, k: nat, m: nat)
    requires Interleaving(ops) && n <= |Journal(ops)|
    ensures Interleaving(cut) && Journal(cut) == Journal(ops)[..n] && IsCut(cut, ops, k, m)
    ensures Openers(cut) <= Openers(ops) && |Assembled(Journal(ops)[..n])| == |Openers(cut)|
    ensures forall i :: 0 <= i < |Openers(cut)| ==> Assembled(Journal(ops)[..n])[i] == Outcome(cut, Openers(cut)[i])
    ensures forall o :: o in Openers(cut) && o.Begin? ==>
              && Streamed(cut, o.s) <= Streamed(ops, o.s)
              && (Outcome(cut, o).incomplete <==> !Ended(Journal(ops)[..n], o.s))
              && (Outcome(cut, o).incomplete ==> Outcome(cut, o).fields == o.fields)
              && (!Outcome(cut, o).incomplete ==> Outcome(cut, o) == Outcome(ops, o))
  {
    cut, k, m := CutJournal(ops, n);
    RoundTrip(cut);
    CutOutcome(cut, ops, k, m, 0);
    forall o | o in Openers(cut) && o.Begin?
      ensures var r := Outcome(cut, o);
              && Streamed(cut, o.s) <= Streamed(ops, o.s)
              && (r.incomplete <==> !Ended(Journal(cut), o.s))
              && (r.incomplete ==> r.fields == o.fields)
              && (!r.incomplete ==> r == Outcome(ops, o))
    {
      CutRecord(cut, ops, k, m, o);
    }
  }
}
