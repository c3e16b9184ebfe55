/** eval/crazeeval/judging.py and judge.py: giving older verdict records their task's own judge
    hash, in place, while other processes append to the same file. */
module Stamping {
  import opened Common
  import opened JsonTrees

  /** A parsed verdict record: the keys the stamper and `verdict_current` look at, and the rest.
      An absent key is Null. */
  datatype Record = Record(task: Json, judgeHash: Json, taskJudgeHash: Json, rest: Fields)

  /** One line of the file. `Unparsed`: not JSON, or not an object. */
  datatype Line = Blank | Unparsed(text: string) | Rec(r: Record)

  datatype Task = Task(judgeHash: string, fingerprint: string)

  /** The judge and the tasks as they are today, and the fingerprints of the batch that owns the
      file, if it has any. */
  datatype Env = Env(tasks: map<string, Task>, globalHash: string, batch: Option<map<string, Json>>)

  /** A digest is never empty. */
  ghost predicate Valid(e: Env) {
    e.globalHash != "" && forall t :: t in e.tasks ==> e.tasks[t].judgeHash != ""
  }

  // ---- the specification ---------------------------------------------------

  /** A known task whose fingerprint today is the one its batch recorded. */
  predicate Unchanged(e: Env, task: Json) {
    && task.Str? && e.batch.Some? && task.s in e.tasks && task.s in e.batch.value
    && e.batch.value[task.s] == Str(e.tasks[task.s].fingerprint)
  }

  datatype Class = Empty | NotRecord | Already | NoHash | OtherHash | TaskChanged | Stampable

  function Classify(e: Env, line: Line): Class {
    match line
    case Blank => Empty
    case Unparsed(_) => NotRecord
    case Rec(r) =>
      if Truthy(r.taskJudgeHash) then Already
      else if !Truthy(r.judgeHash) then NoHash
      else if r.judgeHash != Str(e.globalHash) then OtherHash
      else if !Unchanged(e, r.task) then TaskChanged
      else Stampable
  }

  function StampLine(e: Env, line: Line): Line {
    if Classify(e, line) == Stampable
    then Rec(line.r.(taskJudgeHash := Str(e.tasks[line.r.task.s].judgeHash)))
    else line
  }

  function StampAll(e: Env, lines: seq<Line>): (r: seq<Line>)
    ensures |r| == |lines|
    ensures forall i :: 0 <= i < |r| ==> r[i] == StampLine(e, lines[i])
  {
    seq(|lines|, i requires 0 <= i < |lines| => StampLine(e, lines[i]))
  }

  function Count(e: Env, lines: seq<Line>, c: Class): nat {
    if lines == [] then 0
    else Count(e, lines[..|lines| - 1], c) + if Classify(e, lines[|lines| - 1]) == c then 1 else 0
  }

  datatype Counts = Counts(records: nat, stamped: nat, already: nat, otherHash: nat, noHash: nat,
                           taskChanged: nat, unparsed: nat)

  function Tally(e: Env, lines: seq<Line>): Counts {
    Counts(Count(e, lines, Already) + Count(e, lines, NoHash) + Count(e, lines, OtherHash)
           + Count(e, lines, TaskChanged) + Count(e, lines, Stampable),
           Count(e, lines, Stampable), Count(e, lines, Already), Count(e, lines, OtherHash),
           Count(e, lines, NoHash), Count(e, lines, TaskChanged), Count(e, lines, NotRecord))
  }

  /** What one more line adds to the counts. */
  function CountLine(c: Counts, cls: Class): Counts {
    match cls
    case Empty => c
    case NotRecord => c.(unparsed := c.unparsed + 1)
    case Already => c.(records := c.records + 1, already := c.already + 1)
    case NoHash => c.(records := c.records + 1, noHash := c.noHash + 1)
    case OtherHash => c.(records := c.records + 1, otherHash := c.otherHash + 1)
    case TaskChanged => c.(records := c.records + 1, taskChanged := c.taskChanged + 1)
    case Stampable => c.(records := c.records + 1, stamped := c.stamped + 1)
  }

  lemma TallyStep(e: Env, lines: seq<Line>, i: nat)
    requires i < |lines|
    ensures Tally(e, lines[..i + 1]) == CountLine(Tally(e, lines[..i]), Classify(e, lines[i]))
  {
    assert lines[..i + 1][..i] == lines[..i];
  }

  // ---- the code ------------------------------------------------------------

  /** `_now`: fingerprints of today's tasks, computed once each. */
  class TaskCheck {
    const tasks: map<string, Task>
    var now: map<string, string>

    ghost predicate Valid() reads this {
      forall t :: t in now ==> t in tasks && now[t] == tasks[t].fingerprint
    }

    constructor (tasks: map<string, Task>)
      ensures Valid() && this.tasks == tasks
    {
      this.tasks := tasks;
      now := map[];
    }

    method IsUnchanged(task: Json, batch: Option<map<string, Json>>, e: Env) returns (same: bool)
      requires Valid() && e.tasks == tasks && e.batch == batch
      modifies this
      ensures Valid() && same == Unchanged(e, task)
    {
      if !task.Str? || batch.None? || batch.value == map[] || task.s !in tasks || task.s !in batch.value {
        return false;
      }
      if task.s !in now {
        now := now[task.s := tasks[task.s].fingerprint];
      }
      same := batch.value[task.s] == Str(now[task.s]);
    }
  }

  /** What is to be done with one record, and the record when it is stamped. */
  method StampRecord(rec: Record, e: Env, check: TaskCheck) returns (cls: Class, stamped: Record)
    requires check.Valid() && check.tasks == e.tasks
    modifies check
    ensures check.Valid() && cls == Classify(e, Rec(rec)) && Rec(stamped) == StampLine(e, Rec(rec))
  {
    stamped := rec;
    if Truthy(rec.taskJudgeHash) {
      cls := Already;
    } else if !Truthy(rec.judgeHash) {
      cls := NoHash;
    } else if rec.judgeHash != Str(e.globalHash) {
      cls := OtherHash;
    } else {
      var same := check.IsUnchanged(rec.task, e.batch, e);
      if !same {
        cls := TaskChanged;
      } else {
        cls := Stampable;
        stamped := rec.(taskJudgeHash := Str(e.tasks[rec.task.s].judgeHash));
      }
    }
  }

  /** `_stamp_lines`: the list of lines is edited in place. */
  method StampLines(lines: array<Line>, e: Env) returns (counts: Counts)
    modifies lines
    ensures lines[..] == StampAll(e, old(lines[..]))
    ensures counts == Tally(e, old(lines[..]))
  {
    var check := new TaskCheck(e.tasks);
    counts := Counts(0, 0, 0, 0, 0, 0, 0);
    ghost var was := lines[..];
    var i := 0;
    while i < lines.Length
      invariant 0 <= i <= lines.Length && check.Valid() && check.tasks == e.tasks && fresh(check)
      invariant forall j :: 0 <= j < i ==> lines[j] == StampLine(e, was[j])
      invariant forall j :: i <= j < lines.Length ==> lines[j] == was[j]
      invariant counts == Tally(e, was[..i])
    {
      TallyStep(e, was, i);
      var line := lines[i];
      if line.Unparsed? {
        counts := CountLine(counts, NotRecord);
      } else if line.Rec? {
        var cls, stamped := StampRecord(line.r, e, check);
        counts := CountLine(counts, cls);
        if cls == Stampable {
          lines[i] := Rec(stamped);
        }
      }
      i := i + 1;
    }
    assert was[..i] == was;
  }

  // ---- what a pass keeps ---------------------------------------------------

  /** `verdict_current`; None where the lookup of an unhashable task id raises. */
  function VerdictCurrent(e: Env, r: Record): Option<bool> {
    if Truthy(r.taskJudgeHash) then
      if r.task.Arr? || r.task.Obj? then None
      else Some(r.task.Str? && r.task.s in e.tasks && r.taskJudgeHash == Str(e.tasks[r.task.s].judgeHash))
    else Some(Truthy(r.judgeHash) && r.judgeHash == Str(e.globalHash))
  }

  /** When a record stands: unstamped, while the global hash is the one it was judged under;
      stamped, while its task is known and has the hash it was stamped with. A stamped one whose
      task is a list or an object raises. */
  lemma StandsWhen(e: Env, r: Record)
    requires Valid(e)
    ensures VerdictCurrent(e, r) == Some(true) <==>
              if Truthy(r.taskJudgeHash)
              then exists t :: t in e.tasks && r.task == Str(t) && r.taskJudgeHash == Str(e.tasks[t].judgeHash)
              else r.judgeHash == Str(e.globalHash)
    ensures VerdictCurrent(e, r) == None <==> Truthy(r.taskJudgeHash) && (r.task.Arr? || r.task.Obj?)
  {
  }

  /** A pass changes a line only by giving an unstamped record, judged by today's judge on a task
      unchanged since, its task's hash; and it never changes whether the record stands. */
  lemma PassKeepsVerdicts(e: Env, lines: seq<Line>, i: nat)
    requires Valid(e) && i < |lines|
    ensures var (was, now) := (lines[i], StampAll(e, lines)[i]);
            && (was != now <==> Classify(e, was) == Stampable)
            && (was.Rec? <==> now.Rec?)
            && (was.Rec? ==> VerdictCurrent(e, now.r) == VerdictCurrent(e, was.r)
                             && now.r.(taskJudgeHash := was.r.taskJudgeHash) == was.r)
  {
  }

  /** Which lines a pass changes, by their fields: a record not stamped yet, judged under today's
      global hash, on a task known today and to the batch, whose fingerprint today is the one
      the batch recorded. What it gets is that task's own hash today. */
  lemma StampedWhen(e: Env, lines: seq<Line>, i: nat)
    requires Valid(e) && i < |lines|
    ensures var (was, now) := (lines[i], StampAll(e, lines)[i]);
            && (was != now <==>
                  && was.Rec? && !Truthy(was.r.taskJudgeHash) && was.r.judgeHash == Str(e.globalHash)
                  && was.r.task.Str? && was.r.task.s in e.tasks
                  && e.batch.Some? && was.r.task.s in e.batch.value
                  && e.batch.value[was.r.task.s] == Str(e.tasks[was.r.task.s].fingerprint))
            && (was != now ==>
                  now == Rec(was.r.(taskJudgeHash := Str(e.tasks[was.r.task.s].judgeHash))))
  {
    var (was, now) := (lines[i], StampAll(e, lines)[i]);
    assert Truthy(Str(e.globalHash));
    if was.Rec? && Classify(e, was) == Stampable {
      assert Truthy(now.r.taskJudgeHash);
    }
  }

  /** What each count is of, by a record's fields: stamped already; without a hash; judged under
      another; and of the rest those whose task is unknown, or not in the batch, or changed. */
  predicate Falls(e: Env, r: Record, c: Class) {
    var rest := !Truthy(r.taskJudgeHash) && r.judgeHash == Str(e.globalHash);
    var same := exists t :: t in e.tasks && r.task == Str(t) && e.batch.Some? && t in e.batch.value
                            && e.batch.value[t] == Str(e.tasks[t].fingerprint);
    match c
    case Already => Truthy(r.taskJudgeHash)
    case NoHash => !Truthy(r.taskJudgeHash) && !Truthy(r.judgeHash)
    case OtherHash => !Truthy(r.taskJudgeHash) && Truthy(r.judgeHash) && r.judgeHash != Str(e.globalHash)
    case TaskChanged => rest && !same
    case Stampable => rest && same
    case _ => false
  }

  lemma ClassByFields(e: Env, r: Record, c: Class)
    requires Valid(e)
    ensures Classify(e, Rec(r)) == c <==> Falls(e, r, c)
  {
    assert Truthy(Str(e.globalHash));
  }

  function FallsIn(e: Env, c: Class): Line -> bool { (line: Line) => line.Rec? && Falls(e, line.r, c) }

  function IsRecord(): Line -> bool { (line: Line) => line.Rec? }

  function IsBroken(): Line -> bool { (line: Line) => line.Unparsed? }

  lemma {:induction false} CountIsWhere(e: Env, lines: seq<Line>, c: Class)
    requires Valid(e) && c != Empty && c != NotRecord
    ensures Count(e, lines, c) == |Where(lines, FallsIn(e, c))|
  {
    if lines != [] {
      var line := lines[|lines| - 1];
      CountIsWhere(e, lines[..|lines| - 1], c);
      WhereLast(lines, FallsIn(e, c));
      if line.Rec? {
        ClassByFields(e, line.r, c);
      }
    }
  }

  lemma {:induction false} LinesCounted(e: Env, lines: seq<Line>)
    ensures Tally(e, lines).records == |Where(lines, IsRecord())|
    ensures Tally(e, lines).unparsed == |Where(lines, IsBroken())|
  {
    if lines != [] {
      var n := |lines| - 1;
      LinesCounted(e, lines[..n]);
      TallyStep(e, lines, n);
      assert lines[..n + 1] == lines;
      WhereLast(lines, IsRecord());
      WhereLast(lines, IsBroken());
    }
  }

  /** The counts of a pass, by the records' fields; and each record is counted as one of them. */
  lemma CountsByFields(e: Env, lines: seq<Line>)
    requires Valid(e)
    ensures var t := Tally(e, lines);
            && t.already == |Where(lines, FallsIn(e, Already))| && t.noHash == |Where(lines, FallsIn(e, NoHash))|
            && t.otherHash == |Where(lines, FallsIn(e, OtherHash))|
            && t.taskChanged == |Where(lines, FallsIn(e, TaskChanged))|
            && t.stamped == |Where(lines, FallsIn(e, Stampable))|
            && t.records == |Where(lines, IsRecord())| && t.unparsed == |Where(lines, IsBroken())|
  {
    CountIsWhere(e, lines, Already);
    CountIsWhere(e, lines, NoHash);
    CountIsWhere(e, lines, OtherHash);
    CountIsWhere(e, lines, TaskChanged);
    CountIsWhere(e, lines, Stampable);
    LinesCounted(e, lines);
  }

  lemma {:induction false} NoneStampable(e: Env, lines: seq<Line>)
    requires forall i :: 0 <= i < |lines| ==> Classify(e, lines[i]) != Stampable
    ensures Count(e, lines, Stampable) == 0
  {
    if lines != [] {
      NoneStampable(e, lines[..|lines| - 1]);
    }
  }

  /** A second pass stamps nothing. */
  lemma SecondPassStampsNothing(e: Env, lines: seq<Line>)
    requires Valid(e)
    ensures StampAll(e, StampAll(e, lines)) == StampAll(e, lines)
    ensures Tally(e, StampAll(e, lines)).stamped == 0
  {
    var once := StampAll(e, lines);
    forall i | 0 <= i < |once| ensures Classify(e, once[i]) != Stampable {
      assert once[i] == StampLine(e, lines[i]);
    }
    NoneStampable(e, once);
    assert StampAll(e, once) == once;
  }

  /** What stamping is for. Under a later judge, an unstamped record falls as soon as any task
      changed the global hash; a stamped one stands exactly while its own task's hash stays. */
  lemma StampedIsDurable(e: Env, later: Env, line: Line)
    requires Valid(e) && Classify(e, line) == Stampable
    ensures var stamped := StampLine(e, line).r;
            && VerdictCurrent(later, line.r) == Some(later.globalHash == e.globalHash)
            && VerdictCurrent(later, stamped)
               == Some(line.r.task.s in later.tasks
                       && later.tasks[line.r.task.s].judgeHash == e.tasks[line.r.task.s].judgeHash)
  {
  }

  // ---- many writers, one lock ----------------------------------------------

  datatype Job = Append(line: Line) | Stamp(e: Env)

  /** Where a process is between taking the lock and releasing it. */
  datatype Pc =
    | Idle
    | Locked(job: Job)
    | HasRead(e: Env, raw: seq<Line>)
    | KeptOriginal(e: Env, raw: seq<Line>)
    | Rechecked(e: Env, raw: seq<Line>)
    | Finished

  /** `original`: the copy beside the file, as it was before its first stamp. `appended`: every
      line ever appended, as it was written. */
  datatype World = World(file: seq<Line>, original: Option<seq<Line>>, holder: Option<nat>, pcs: map<nat, Pc>,
                         ghost appended: seq<Line>)

  datatype Step =
    | Acquire(p: nat, job: Job)
    | Write(p: nat)          // the appender's one write
    | Read(p: nat)           // the stamper's read
    | Keep(p: nat)           // it publishes the original, unless one is there
    | Recheck(p: nat)        // it reads again and gives up if the file changed
    | Replace(p: nat)        // it puts the stamped file in place
    | Release(p: nat)        // done, or an exception, or the process died: the lock is free

  function PcOf(w: World, p: nat): Pc { if p in w.pcs then w.pcs[p] else Idle }

  ghost function Next(w: World, s: Step): World {
    match s
    case Acquire(p, job) =>
      if w.holder.None? && PcOf(w, p).Idle? then w.(holder := Some(p), pcs := w.pcs[p := Locked(job)]) else w
    case Write(p) =>
      var pc := PcOf(w, p);
      if pc.Locked? && pc.job.Append?
      then w.(file := w.file + [pc.job.line], appended := w.appended + [pc.job.line], pcs := w.pcs[p := Finished])
      else w
    case Read(p) =>
      var pc := PcOf(w, p);
      if pc.Locked? && pc.job.Stamp? then w.(pcs := w.pcs[p := HasRead(pc.job.e, w.file)]) else w
    case Keep(p) =>
      var pc := PcOf(w, p);
      if !pc.HasRead? then w
      else if Tally(pc.e, pc.raw).stamped == 0 then w.(pcs := w.pcs[p := Finished])
      else w.(original := if w.original.Some? then w.original else Some(pc.raw),
              pcs := w.pcs[p := KeptOriginal(pc.e, pc.raw)])
    case Recheck(p) =>
      var pc := PcOf(w, p);
      if !pc.KeptOriginal? then w
      else w.(pcs := w.pcs[p := if w.file == pc.raw then Rechecked(pc.e, pc.raw) else Finished])
    case Replace(p) =>
      var pc := PcOf(w, p);
      if pc.Rechecked? then w.(file := StampAll(pc.e, pc.raw), pcs := w.pcs[p := Finished]) else w
    case Release(p) =>
      w.(holder := if w.holder == Some(p) then None else w.holder, pcs := w.pcs[p := Idle])
  }

  ghost function Start(lines: seq<Line>): World { World(lines, None, None, map[], lines) }

  ghost function Run(lines: seq<Line>, steps: seq<Step>): World {
    if steps == [] then Start(lines) else Next(Run(lines, steps[..|steps| - 1]), steps[|steps| - 1])
  }

  /** The stampers' judges. */
  ghost predicate Among(envs: set<Env>, steps: seq<Step>) {
    forall i :: 0 <= i < |steps| && steps[i].Acquire? && steps[i].job.Stamp? ==> steps[i].job.e in envs
  }

  /** `now` is the line `was`, stamped at most once, by one of the judges. */
  ghost predicate Came(envs: set<Env>, was: Line, now: Line) {
    now == was || exists e :: e in envs && Classify(e, was) == Stampable && now == StampLine(e, was)
  }

  ghost predicate Holds(envs: set<Env>, w: World, pc: Pc) {
    match pc
    case Idle => true
    case Locked(job) => job.Stamp? ==> job.e in envs
    case HasRead(e, raw) => e in envs && raw == w.file
    case KeptOriginal(e, raw) => e in envs && raw == w.file && w.original.Some?
    case Rechecked(e, raw) => e in envs && raw == w.file && w.original.Some?
    case Finished => true
  }

  ghost predicate Inv(envs: set<Env>, w: World) {
    && (forall p :: p in w.pcs && !w.pcs[p].Idle? ==> w.holder == Some(p))
    && (forall p :: p in w.pcs ==> Holds(envs, w, w.pcs[p]))
    && |w.file| == |w.appended|
    && (forall i :: 0 <= i < |w.file| ==> Came(envs, w.appended[i], w.file[i]))
    && (w.original.None? ==> w.file == w.appended)
    && (w.original.Some? ==> w.original.value <= w.appended)
  }

  /** A stamp on a line that has come this far. */
  lemma StampCame(envs: set<Env>, e: Env, was: Line, now: Line)
    requires e in envs && Came(envs, was, now) && forall d :: d in envs ==> Valid(d)
    ensures Came(envs, was, StampLine(e, now))
  {
    if now != was {
      var d :| d in envs && Classify(d, was) == Stampable && now == StampLine(d, was);
      assert Classify(e, now) == Already;
    }
  }

  lemma NextKeepsInv(envs: set<Env>, w: World, s: Step)
    requires Inv(envs, w) && (forall d :: d in envs ==> Valid(d))
    requires s.Acquire? && s.job.Stamp? ==> s.job.e in envs
    ensures Inv(envs, Next(w, s))
  {
    var w' := Next(w, s);
    if s.Replace? && PcOf(w, s.p).Rechecked? {
      var e := PcOf(w, s.p).e;
      forall i | 0 <= i < |w'.file| ensures Came(envs, w'.appended[i], w'.file[i]) {
        StampCame(envs, e, w.appended[i], w.file[i]);
      }
    }
  }

  lemma {:induction false} RunKeepsInv(envs: set<Env>, lines: seq<Line>, steps: seq<Step>)
    requires Among(envs, steps) && forall d :: d in envs ==> Valid(d)
    ensures Inv(envs, Run(lines, steps))
  {
    if steps != [] {
      RunKeepsInv(envs, lines, steps[..|steps| - 1]);
      NextKeepsInv(envs, Run(lines, steps[..|steps| - 1]), steps[|steps| - 1]);
    }
  }

  /** Every interleaving of appenders and stampers, each of which may die at any step: the file
      holds every line ever appended, once, in order, changed at most by one stamp; the copy
      kept is the file as it was before its first stamp; and the stamper's second read never
      finds the file changed. */
  lemma NoAppendLost(envs: set<Env>, lines: seq<Line>, steps: seq<Step>, p: nat)
    requires Among(envs, steps) && forall d :: d in envs ==> Valid(d)
    ensures var w := Run(lines, steps);
            && |w.file| == |w.appended|
            && (forall i :: 0 <= i < |w.file| ==> Came(envs, w.appended[i], w.file[i]))
            && (w.original.Some? ==> w.original.value <= w.appended)
            && (PcOf(w, p).KeptOriginal? ==> w.file == PcOf(w, p).raw)
  {
    RunKeepsInv(envs, lines, steps);
  }

  /** With one judge throughout, every record appended stands or falls as it was written. */
  lemma RunKeepsVerdicts(e: Env, lines: seq<Line>, steps: seq<Step>, i: nat)
    requires Among({e}, steps) && Valid(e) && i < |Run(lines, steps).file|
    ensures var w := Run(lines, steps);
            i < |w.appended| && (w.appended[i].Rec? <==> w.file[i].Rec?)
            && (w.file[i].Rec? ==> VerdictCurrent(e, w.file[i].r) == VerdictCurrent(e, w.appended[i].r))
  {
    RunKeepsInv({e}, lines, steps);
    assert Came({e}, Run(lines, steps).appended[i], Run(lines, steps).file[i]);
  }

  /** A stamper that gets through: the file is the stamped one, the copy is kept unless one was,
      and the lock is free again. With nothing to stamp nothing is written. */
  lemma PassGoesThrough(w: World, p: nat, e: Env)
    requires Valid(e) && w.holder.None? && PcOf(w, p).Idle?
    ensures var done := Next(Next(Next(Next(Next(Next(w, Acquire(p, Stamp(e))), Read(p)), Keep(p)), Recheck(p)),
                                  Replace(p)), Release(p));
            && done.file == StampAll(e, w.file) && done.holder == None && PcOf(done, p).Idle?
            && done.original == (if w.original.Some? || StampAll(e, w.file) == w.file then w.original else Some(w.file))
            && done.appended == w.appended
  {
    NothingStamped(e, w.file);
  }

  lemma {:induction false} NothingStamped(e: Env, lines: seq<Line>)
    requires Valid(e)
    ensures StampAll(e, lines) == lines <==> Tally(e, lines).stamped == 0
  {
    if lines != [] {
      var (before, line) := (lines[..|lines| - 1], lines[|lines| - 1]);
      NothingStamped(e, before);
      PassKeepsVerdicts(e, lines, |before|);
      assert StampAll(e, lines) == StampAll(e, before) + [StampLine(e, line)];
      assert lines == before + [line];
      assert StampLine(e, line) == line <==> Classify(e, line) != Stampable;
    }
  }

  /** An appender that gets through, and one that has to wait. */
  lemma AppendGoesThrough(w: World, p: nat, line: Line)
    requires PcOf(w, p).Idle?
    ensures var done := Next(Next(Next(w, Acquire(p, Append(line))), Write(p)), Release(p));
            && (w.holder.None? ==> done.file == w.file + [line] && done.appended == w.appended + [line])
            && (w.holder.Some? ==> done.file == w.file && done.appended == w.appended)
            && done.original == w.original
  {
  }
}
