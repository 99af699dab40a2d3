// The history recorder (lcm/manager.go, lcm/process.go): a coordinator that hands operations to
// idle processes, the processes that carry them out, and the one list of events all of them append
// to under a lock.
module Recorder {
  import opened JepsenLog

  datatype EventType = ReadEvent | WriteEvent

  datatype EventResult = WasInvoked | WasCompleted | WasFailed

  datatype LogEvent = LogEvent(eventType: EventType, eventResult: EventResult, id: nat, value: nat)

  // math.MaxUint64 stands for no value.
  const NO_VALUE: nat := 0xffff_ffff_ffff_ffff

  // Process numbers are padded to four columns: from 1000 on nothing separates the number from
  // what follows it.
  const WIDE_ID: nat := 1000

  // toJepsenLogEntry, as the pattern of the parser its line matches. A failed write is printed as
  // :info, which no pattern knows.
  function Printed(e: LogEvent): Line
  {
    if e.id >= WIDE_ID then Unmatched
    else
      match e.eventType
      case ReadEvent =>
        (match e.eventResult
         case WasInvoked => InvokeRead(e.id)
         case WasCompleted => if e.value == NO_VALUE then OkRead(e.id, false, 0) else OkRead(e.id, true, e.value)
         case WasFailed => TimedOutRead(e.id))
      case WriteEvent =>
        (match e.eventResult
         case WasInvoked => if e.value == NO_VALUE then Unmatched else InvokeWrite(e.id, e.value)
         case WasCompleted => if e.value == NO_VALUE then Unmatched else OkWrite(e.id, e.value)
         case WasFailed => Unmatched)
  }

  function PrintedAll(events: seq<LogEvent>): seq<Line>
  {
    seq(|events|, i requires 0 <= i < |events| => Printed(events[i]))
  }

  // ----- coordinator and processes, step by step

  datatype Op = ReadOp | WriteOp(value: nat)

  // What the goroutine of a process is at.
  datatype Task = NoTask | Running(op: Op) | Failing(op: Op) | Recorded

  datatype Proc = Proc(idle: bool, stopped: bool, task: Task)

  // Between recording an invocation and setting the process busy the coordinator does nothing else.
  datatype Starting = NotStarting | Starting(id: nat, op: Op)

  datatype World = World(events: seq<LogEvent>, value: nat, procs: map<nat, Proc>, starting: Starting)

  datatype Step =
    | Invoke(id: nat, write: bool)
    | Launch
    | GiveUp(id: nat)
    | RecordFailure(id: nat)
    | RecordSuccess(id: nat, value: nat)
    | SetIdle(id: nat)
    | StopProcess(id: nat)

  function InvokedEvent(id: nat, op: Op): LogEvent
  {
    match op
    case ReadOp => LogEvent(ReadEvent, WasInvoked, id, 0)
    case WriteOp(v) => LogEvent(WriteEvent, WasInvoked, id, v)
  }

  function FailedEvent(id: nat, op: Op): LogEvent
  {
    LogEvent(if op == ReadOp then ReadEvent else WriteEvent, WasFailed, id, 0)
  }

  // A read completes with the value read, a write with the value written.
  function CompletedEvent(id: nat, op: Op, value: nat): LogEvent
  {
    match op
    case ReadOp => LogEvent(ReadEvent, WasCompleted, id, value)
    case WriteOp(v) => LogEvent(WriteEvent, WasCompleted, id, v)
  }

  predicate Enabled(w: World, step: Step)
  {
    match step
    case Invoke(id, write) =>
      && id in w.procs && w.procs[id].idle && !w.procs[id].stopped && w.starting.NotStarting?
      && (write ==> w.value < NO_VALUE)
    case Launch => w.starting.Starting? && w.starting.id in w.procs
    case GiveUp(id) => id in w.procs && w.procs[id].task.Running?
    case RecordFailure(id) => id in w.procs && w.procs[id].task.Failing?
    case RecordSuccess(id, value) => id in w.procs && w.procs[id].task.Running? && value <= NO_VALUE
    case SetIdle(id) => id in w.procs && w.procs[id].task.Recorded?
    case StopProcess(id) => id in w.procs
  }

  function Next(w: World, step: Step): World
    requires Enabled(w, step)
  {
    match step
    case Invoke(id, write) =>
      var op := if write then WriteOp(w.value) else ReadOp;
      w.(events := w.events + [InvokedEvent(id, op)], value := if write then w.value + 1 else w.value,
         starting := Starting(id, op))
    case Launch =>
      var p := w.procs[w.starting.id].(idle := false, task := Running(w.starting.op));
      w.(procs := w.procs[w.starting.id := p], starting := NotStarting)
    case GiveUp(id) =>
      w.(procs := w.procs[id := w.procs[id].(stopped := true, task := Failing(w.procs[id].task.op))])
    case RecordFailure(id) =>
      w.(events := w.events + [FailedEvent(id, w.procs[id].task.op)], procs := w.procs[id := w.procs[id].(task := Recorded)])
    case RecordSuccess(id, value) =>
      w.(events := w.events + [CompletedEvent(id, w.procs[id].task.op, value)],
         procs := w.procs[id := w.procs[id].(task := Recorded)])
    case SetIdle(id) => w.(procs := w.procs[id := w.procs[id].(idle := true, task := NoTask)])
    case StopProcess(id) => w.(procs := w.procs[id := w.procs[id].(stopped := true)])
  }

  function NewProcs(size: nat): (procs: map<nat, Proc>)
    ensures forall id: nat :: id in procs <==> id < size
    ensures forall id: nat :: id in procs ==> procs[id] == Proc(true, false, NoTask)
  {
    if size == 0 then map[] else NewProcs(size - 1)[size - 1 := Proc(true, false, NoTask)]
  }

  // NewCoordinator, with `size` processes.
  function Start(size: nat): World
  {
    World([], 1, NewProcs(size), NotStarting)
  }

  // ----- the values written

  predicate InvokesWrite(e: LogEvent)
  {
    e.eventType == WriteEvent && e.eventResult.WasInvoked?
  }

  // No two invoked writes write the same, and none writes what the counter will give next.
  ghost predicate NewValues(events: seq<LogEvent>, value: nat)
  {
    && (forall i, j :: 0 <= i < j < |events| && InvokesWrite(events[i]) && InvokesWrite(events[j]) ==>
          events[i].value < events[j].value)
    && forall e :: e in events && InvokesWrite(e) ==> 1 <= e.value < value
  }

  // ----- the objects

  const INITIAL_WAIT: nat := 25

  const MAX_WAIT: nat := 100

  class Coordinator {
    var events: seq<LogEvent>
    var value: nat
    var completeCount: nat
    var wait: nat

    // The wait between two schedulings doubles from its least to its greatest value.
    ghost predicate Valid()
      reads this
    {
      && completeCount < 4 && wait in {INITIAL_WAIT, 2 * INITIAL_WAIT, MAX_WAIT}
      && value >= 1 && NewValues(events, value)
    }

    constructor ()
      ensures Valid() && events == [] && value == 1
    {
      events, value, completeCount, wait := [], 1, 0, INITIAL_WAIT;
    }

    // One round of scheduleProcesses: an operation for process id.
    method RecordInvoked(id: nat, write: bool) returns (op: Op)
      requires Valid()
      modifies this
      ensures Valid() && op == (if write then WriteOp(old(value)) else ReadOp)
      ensures write ==> forall e :: e in old(events) && InvokesWrite(e) ==> e.value != op.value
      ensures events == old(events) + [InvokedEvent(id, op)]
      ensures events == old(events) + [if write then LogEvent(WriteEvent, WasInvoked, id, old(value))
                                       else LogEvent(ReadEvent, WasInvoked, id, 0)]
      ensures value == old(value) + (if write then 1 else 0) && wait == old(wait) && completeCount == old(completeCount)
    {
      if !write {
        events := events + [LogEvent(ReadEvent, WasInvoked, id, 0)];
        return ReadOp;
      }
      op := WriteOp(value);
      events := events + [LogEvent(WriteEvent, WasInvoked, id, value)];
      value := value + 1;
    }

    method RecordFailed(id: nat, op: Op)
      requires Valid()
      modifies this`events, this`completeCount, this`wait
      ensures Valid() && events == old(events) + [FailedEvent(id, op)]
      ensures events == old(events) + [LogEvent(if op.ReadOp? then ReadEvent else WriteEvent, WasFailed, id, 0)]
      ensures completeCount == 0 && wait == if 2 * old(wait) >= MAX_WAIT then MAX_WAIT else 2 * old(wait)
    {
      completeCount := 0;
      wait := wait * 2;
      if wait >= MAX_WAIT {
        wait := MAX_WAIT;
      }
      events := events + [LogEvent(if op == ReadOp then ReadEvent else WriteEvent, WasFailed, id, 0)];
    }

    // The fourth completion in a row brings the wait back to its least.
    method RecordCompleted(id: nat, op: Op, got: nat)
      requires Valid()
      modifies this`events, this`completeCount, this`wait
      ensures Valid() && events == old(events) + [CompletedEvent(id, op, got)]
      ensures events == old(events) + [if op.ReadOp? then LogEvent(ReadEvent, WasCompleted, id, got)
                                       else LogEvent(WriteEvent, WasCompleted, id, op.value)]
      ensures completeCount == (old(completeCount) + 1) % 4
      ensures wait == if completeCount == 0 then INITIAL_WAIT else old(wait)
    {
      completeCount := completeCount + 1;
      if completeCount == 4 {
        wait := INITIAL_WAIT;
        completeCount := 0;
      }
      events := events + [if op == ReadOp then LogEvent(ReadEvent, WasCompleted, id, got)
                          else LogEvent(WriteEvent, WasCompleted, id, op.value)];
    }
  }

  // A launched operation with nothing in between.
  ghost function Served(w: World, id: nat, fails: bool, got: nat): World
    requires w.starting.Starting? && w.starting.id == id && id in w.procs && got <= NO_VALUE
  {
    var launched := Next(w, Launch);
    var done := if fails then Next(Next(launched, GiveUp(id)), RecordFailure(id))
                else Next(launched, RecordSuccess(id, got));
    Next(done, SetIdle(id))
  }

  class Process {
    const id: nat
    const recorder: Coordinator
    var stoppedFlag: bool
    var idleFlag: bool

    constructor (id: nat, recorder: Coordinator)
      ensures this.id == id && this.recorder == recorder && idleFlag && !stoppedFlag
    {
      this.id, this.recorder := id, recorder;
      stoppedFlag, idleFlag := false, true;
    }

    // StartRead and StartWrite with their goroutine run to its end: what the steps Launch, GiveUp
    // and RecordFailure or RecordSuccess, and SetIdle do one after the other.
    method Start(op: Op, fails: bool, got: nat)
      requires recorder.Valid() && got <= NO_VALUE
      modifies this, recorder
      ensures recorder.Valid() && recorder.value == old(recorder.value)
      ensures var w := World(old(recorder.events), old(recorder.value),
                             map[id := Proc(old(idleFlag), old(stoppedFlag), NoTask)], Starting(id, op));
              Served(w, id, fails, got) == World(recorder.events, recorder.value,
                                                 map[id := Proc(idleFlag, stoppedFlag, NoTask)], NotStarting)
    {
      idleFlag := false;
      if fails {
        stoppedFlag := true;
        recorder.RecordFailed(id, op);
      } else {
        recorder.RecordCompleted(id, op, got);
      }
      idleFlag := true;
    }
  }

  // ----- what the events say of one process

  datatype Status = Quiet | Busy(op: Op) | Dead(op: Op)

  function OpOf(e: LogEvent): Op
  {
    if e.eventType == ReadEvent then ReadOp else WriteOp(e.value)
  }

  function StatusOf(events: seq<LogEvent>, id: nat): Status
  {
    if events == [] then Quiet
    else
      var e, before := events[|events| - 1], events[..|events| - 1];
      if e.id != id then StatusOf(before, id)
      else match e.eventResult
           case WasInvoked => Busy(OpOf(e))
           case WasCompleted => Quiet
           case WasFailed => if StatusOf(before, id).Busy? then Dead(StatusOf(before, id).op) else Quiet
  }

  // Every event continues what its process was at.
  ghost predicate Fits(events: seq<LogEvent>, e: LogEvent)
  {
    var s := StatusOf(events, e.id);
    && (e.eventResult.WasInvoked? ==> s.Quiet? && e.value < NO_VALUE)
    && (!e.eventResult.WasInvoked? ==> s.Busy? && (e.eventType == ReadEvent <==> s.op == ReadOp))
    && (e.eventResult.WasCompleted? && e.eventType == WriteEvent ==> s.op == WriteOp(e.value) && e.value < NO_VALUE)
    && e.value <= NO_VALUE
    && (e.eventResult.WasFailed? || (e.eventResult.WasInvoked? && e.eventType == ReadEvent) ==> e.value == 0)
  }

  ghost predicate Disciplined(events: seq<LogEvent>)
  {
    forall i :: 0 <= i < |events| ==> Fits(events[..i], events[i])
  }

  ghost predicate ProcOk(w: World, id: nat)
    requires id in w.procs
  {
    var p, s := w.procs[id], StatusOf(w.events, id);
    && (s.Dead? ==> p.stopped)
    && (s.Busy? && s.op.WriteOp? ==> s.op.value < w.value)
    && match p.task
       case NoTask => p.idle && if w.starting.Starting? && w.starting.id == id then s == Busy(w.starting.op) else !s.Busy?
       case Running(op) => !p.idle && s == Busy(op)
       case Failing(op) => !p.idle && s == Busy(op) && p.stopped
       case Recorded => !p.idle && !s.Busy?
  }

  ghost predicate ValuesOk(w: World)
  {
    && 1 <= w.value <= NO_VALUE && NewValues(w.events, w.value)
    && forall e :: e in w.events && e.eventType == WriteEvent ==> e.value < w.value
  }

  ghost predicate Inv(w: World)
  {
    && Disciplined(w.events)
    && (w.starting.Starting? ==> w.starting.id in w.procs && w.procs[w.starting.id].task.NoTask?)
    && (forall id :: id in w.procs ==> ProcOk(w, id))
    && (forall e :: e in w.events ==> e.id in w.procs)
    && ValuesOk(w)
  }

  lemma StatusSnoc(events: seq<LogEvent>, e: LogEvent, id: nat)
    ensures StatusOf(events + [e], id) ==
              if e.id != id then StatusOf(events, id)
              else match e.eventResult
                   case WasInvoked => Busy(OpOf(e))
                   case WasCompleted => Quiet
                   case WasFailed => if StatusOf(events, id).Busy? then Dead(StatusOf(events, id).op) else Quiet
  {
    assert (events + [e])[..|events|] == events;
  }

  lemma DisciplinedSnoc(events: seq<LogEvent>, e: LogEvent)
    requires Disciplined(events) && Fits(events, e)
    ensures Disciplined(events + [e])
  {
    var more := events + [e];
    forall i | 0 <= i < |more|
      ensures Fits(more[..i], more[i])
    {
      assert more[..i] == events[..i];
      if i == |events| {
        assert events[..i] == events;
      }
    }
  }

  lemma StartOk(size: nat)
    ensures Inv(Start(size))
  {}

  lemma NewValuesSnoc(events: seq<LogEvent>, value: nat, e: LogEvent, value': nat)
    requires NewValues(events, value) && value <= value' && (InvokesWrite(e) ==> value == e.value < value' && value >= 1)
    ensures NewValues(events + [e], value')
  {}

  lemma ValuesKept(w: World, step: Step)
    requires Inv(w) && Enabled(w, step)
    ensures ValuesOk(Next(w, step)) && w.value <= Next(w, step).value <= NO_VALUE
  {
    hide StatusOf, Disciplined, NewValues;
    var w' := Next(w, step);
    if w'.events != w.events {
      var e := w'.events[|w.events|];
      assert w'.events == w.events + [e];
      assert ProcOk(w, e.id);
      NewValuesSnoc(w.events, w.value, e, w'.value);
    }
  }

  // The event a step adds continues what its process was at.
  lemma NextEventFits(w: World, step: Step)
    requires Inv(w) && Enabled(w, step) && Next(w, step).events != w.events
    ensures var e := Next(w, step).events[|w.events|];
            Next(w, step).events == w.events + [e] && Fits(w.events, e) && e.id in w.procs
  {
    hide StatusOf, Disciplined, NewValues;
    var e := Next(w, step).events[|w.events|];
    assert Next(w, step).events == w.events + [e];
    assert ProcOk(w, e.id);
  }

  // A process whose status an event changes is the one that the step is about.
  lemma StatusKept(w: World, step: Step, id: nat)
    requires Inv(w) && Enabled(w, step)
    ensures var w' := Next(w, step);
            if w'.events == w.events then StatusOf(w'.events, id) == StatusOf(w.events, id)
            else
              var e := w'.events[|w'.events| - 1];
              StatusOf(w'.events, id) ==
                if e.id != id then StatusOf(w.events, id)
                else if e.eventResult.WasInvoked? then Busy(OpOf(e))
                else if e.eventResult.WasFailed? && StatusOf(w.events, id).Busy? then Dead(StatusOf(w.events, id).op)
                else Quiet
  {
    var w' := Next(w, step);
    if w'.events != w.events {
      NextEventFits(w, step);
      hide StatusOf, Disciplined, ValuesOk, ProcOk;
      StatusSnoc(w.events, w'.events[|w.events|], id);
    }
  }

  lemma ProcsOk(w: World, id: nat)
    requires Inv(w) && id in w.procs
    ensures ProcOk(w, id)
    ensures w.starting.Starting? ==>
              w.starting.id in w.procs && ProcOk(w, w.starting.id) && w.procs[w.starting.id].task.NoTask?
  {
    hide ProcOk, Disciplined, ValuesOk;
  }

  lemma ProcKept(w: World, step: Step, id: nat)
    requires Inv(w) && Enabled(w, step) && id in w.procs
    ensures id in Next(w, step).procs && ProcOk(Next(w, step), id)
  {
    hide StatusOf, Disciplined, ValuesOk, Inv, Fits;
    ValuesKept(w, step);
    StatusKept(w, step, id);
    ProcsOk(w, id);
    match step {
      case Invoke(_, _) =>
      case Launch =>
      case _ =>
    }
  }

  lemma EventsKept(w: World, step: Step)
    requires Inv(w) && Enabled(w, step)
    ensures var w' := Next(w, step);
            w'.procs.Keys == w.procs.Keys && Disciplined(w'.events) && forall e :: e in w'.events ==> e.id in w.procs
  {
    var w' := Next(w, step);
    assert w'.procs.Keys == w.procs.Keys;
    if w'.events != w.events {
      NextEventFits(w, step);
      hide Enabled, Next, ProcOk, Fits, StatusOf, Disciplined, ValuesOk;
      DisciplinedSnoc(w.events, w'.events[|w.events|]);
    }
  }

  lemma StartingKept(w: World, step: Step)
    requires Inv(w) && Enabled(w, step)
    ensures var w' := Next(w, step);
            w'.starting.Starting? ==> w'.starting.id in w'.procs && w'.procs[w'.starting.id].task.NoTask?
  {
    hide Disciplined, ValuesOk;
    if step.Invoke? {
      assert ProcOk(w, step.id);
    }
  }

  lemma StepKeeps(w: World, step: Step)
    requires Inv(w) && Enabled(w, step)
    ensures Inv(Next(w, step)) && Next(w, step).procs.Keys == w.procs.Keys
  {
    hide StatusOf, Disciplined, ValuesOk, Fits, ProcOk, Next, Enabled;
    ValuesKept(w, step);
    EventsKept(w, step);
    StartingKept(w, step);
    var w' := Next(w, step);
    assert forall id :: id in w'.procs.Keys ==> id in w.procs;
    forall id | id in w'.procs
      ensures ProcOk(w', id)
    {
      ProcKept(w, step, id);
    }
  }

  ghost predicate IsRun(worlds: seq<World>, steps: seq<Step>, size: nat)
  {
    && |worlds| == |steps| + 1 && worlds[0] == Start(size)
    && forall i :: 0 <= i < |steps| ==> Enabled(worlds[i], steps[i]) && worlds[i + 1] == Next(worlds[i], steps[i])
  }

  // In every interleaving each process is invoked, heard from, invoked again; and not at all once
  // it has failed. No value is written twice.
  lemma {:induction false} RunIsDisciplined(worlds: seq<World>, steps: seq<Step>, size: nat, i: nat)
    requires IsRun(worlds, steps, size) && i < |worlds|
    ensures Inv(worlds[i]) && Disciplined(worlds[i].events)
    ensures forall e :: e in worlds[i].events ==> e.id < size
    ensures forall id :: id in worlds[i].procs ==> id < size
    ensures NewValues(worlds[i].events, worlds[i].value)
  {
    hide StatusOf, Disciplined, Enabled, Next, ProcOk;
    if i == 0 {
      StartOk(size);
    } else {
      RunIsDisciplined(worlds, steps, size, i - 1);
      StepKeeps(worlds[i - 1], steps[i - 1]);
      assert worlds[i].procs.Keys == worlds[i - 1].procs.Keys;
      assert forall id :: id in worlds[i].procs.Keys ==> id in worlds[i - 1].procs;
    }
  }
}
