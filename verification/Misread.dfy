// Recorded logs on which the checker's verdict is not the one on what was observed: the bound on
// process numbers and the bound on values are as large as they can be.
module Misread {
  import opened History
  import opened Register
  import opened JepsenLog
  import opened Recorder
  import opened RecordedHistory
  import opened Turns

  // ----- runs in which the processes take turns

  // One operation, served without interruption.
  datatype Done = Done(id: nat, op: Op, got: nat)

  function EventsOf(ds: seq<Done>): seq<LogEvent>
  {
    if ds == [] then []
    else
      var d := ds[|ds| - 1];
      EventsOf(ds[..|ds| - 1]) + [InvokedEvent(d.id, d.op)] + [CompletedEvent(d.id, d.op, d.got)]
  }

  // What the counter gives next.
  function Counter(ds: seq<Done>): nat
  {
    if ds == [] then 1 else Counter(ds[..|ds| - 1]) + if ds[|ds| - 1].op.WriteOp? then 1 else 0
  }

  // A process of the coordinator, the value due, and an answer.
  ghost predicate Servable(ds: seq<Done>, k: nat, size: nat)
    requires k < |ds|
  {
    ds[k].id < size && ds[k].got <= NO_VALUE && (ds[k].op.WriteOp? ==> ds[k].op.value == Counter(ds[..k]))
  }

  ghost predicate AllServable(ds: seq<Done>, size: nat)
  {
    |ds| < NO_VALUE && forall k: nat :: k < |ds| ==> Servable(ds, k, size)
  }

  function ServedWorld(ds: seq<Done>, size: nat): World
  {
    World(EventsOf(ds), Counter(ds), NewProcs(size), NotStarting)
  }

  lemma CounterBound(ds: seq<Done>)
    ensures Counter(ds) <= 1 + |ds|
  {}

  lemma CounterSnoc(ds: seq<Done>, d: Done)
    ensures Counter(ds + [d]) == Counter(ds) + if d.op.WriteOp? then 1 else 0
  {
    assert (ds + [d])[..|ds|] == ds;
  }

  lemma EventsSnoc(ds: seq<Done>, d: Done)
    ensures EventsOf(ds + [d]) == EventsOf(ds) + [InvokedEvent(d.id, d.op)] + [CompletedEvent(d.id, d.op, d.got)]
  {
    assert (ds + [d])[..|ds|] == ds;
  }

  // The four steps of one operation.
  lemma Serve(ds: seq<Done>, d: Done, size: nat) returns (worlds: seq<World>, steps: seq<Step>)
    requires AllServable(ds + [d], size)
    ensures |worlds| == |steps| + 1 && worlds[0] == ServedWorld(ds, size) && worlds[|steps|] == ServedWorld(ds + [d], size)
    ensures forall i :: 0 <= i < |steps| ==> Enabled(worlds[i], steps[i]) && worlds[i + 1] == Next(worlds[i], steps[i])
  {
    assert (ds + [d])[|ds|] == d && (ds + [d])[..|ds|] == ds && Servable(ds + [d], |ds|, size);
    CounterBound(ds);
    EventsSnoc(ds, d);
    steps := [Invoke(d.id, d.op.WriteOp?), Launch, RecordSuccess(d.id, d.got), SetIdle(d.id)];
    var w0 := ServedWorld(ds, size);
    var w1 := Next(w0, steps[0]);
    var w2 := Next(w1, steps[1]);
    var w3 := Next(w2, steps[2]);
    var w4 := Next(w3, steps[3]);
    assert w4.procs == NewProcs(size);
    worlds := [w0, w1, w2, w3, w4];
  }

  lemma {:induction false} ServedRun(ds: seq<Done>, size: nat) returns (worlds: seq<World>, steps: seq<Step>)
    requires AllServable(ds, size)
    ensures IsRun(worlds, steps, size) && worlds[|steps|] == ServedWorld(ds, size)
  {
    if ds == [] {
      worlds, steps := [Start(size)], [];
    } else {
      var n := |ds| - 1;
      var before := ds[..n];
      assert ds == before + [ds[n]];
      forall k: nat | k < n
        ensures Servable(before, k, size)
      {
        assert Servable(ds, k, size) && before[..k] == ds[..k];
      }
      var ws, ss := ServedRun(before, size);
      var more, last := Serve(before, ds[n], size);
      hide Enabled, Next;
      worlds, steps := ws + more[1..], ss + last;
      forall i | 0 <= i < |steps|
        ensures Enabled(worlds[i], steps[i]) && worlds[i + 1] == Next(worlds[i], steps[i])
      {
        if i >= |ss| {
          assert worlds[i] == more[i - |ss|] && worlds[i + 1] == more[i + 1 - |ss|] && steps[i] == last[i - |ss|];
        }
      }
    }
  }

  // ----- what is observed of them

  function Ins(ds: seq<Done>): seq<Value>
  {
    seq(|ds|, k requires 0 <= k < |ds| => OpInput(ds[k].op))
  }

  function Outs(ds: seq<Done>): seq<Value>
  {
    seq(|ds|, k requires 0 <= k < |ds| => OpOutput(CompletedEvent(ds[k].id, ds[k].op, ds[k].got)))
  }

  lemma SequentialSnoc(ds: seq<Done>, d: Done)
    ensures var n, more := |ds|, ds + [d];
            Sequential(Ins(more), Outs(more)) == Sequential(Ins(ds), Outs(ds))
                                                 + [Call(Ins(more)[n], n)] + [Return(Outs(more)[n], n)]
  {
    assert Ins(ds + [d])[..|ds|] == Ins(ds) && Outs(ds + [d])[..|ds|] == Outs(ds);
  }

  lemma NothingServed()
    ensures EventsOf([]) == [] && Observed([]) == Seen([], 0, map[]) && Sequential(Ins([]), Outs([])) == []
  {}

  lemma ObservedSnoc(events: seq<LogEvent>, e: LogEvent)
    ensures Observed(events + [e]) == Observe(Observed(events), e)
  {
    assert (events + [e])[..|events|] == events;
  }

  lemma {:induction false} ObservedServed(ds: seq<Done>)
    ensures Observed(EventsOf(ds)).history == Sequential(Ins(ds), Outs(ds)) && Observed(EventsOf(ds)).next == |ds|
  {
    hide EventsOf, Sequential, Observed;
    if ds == [] {
      NothingServed();
    } else {
      var n := |ds| - 1;
      var before, d := ds[..n], ds[n];
      ObservedServed(before);
      assert ds == before + [d];
      EventsSnoc(before, d);
      SequentialSnoc(before, d);
      var called, answered := InvokedEvent(d.id, d.op), CompletedEvent(d.id, d.op, d.got);
      ObservedSnoc(EventsOf(before), called);
      ObservedSnoc(EventsOf(before) + [called], answered);
    }
  }

  // ----- the runs

  lemma {:induction false} ListKeys(m: map<nat, nat>) returns (procs: seq<nat>)
    ensures AllPending(m, procs)
    decreases m.Keys
  {
    if m.Keys == {} {
      procs := [];
    } else {
      var q :| q in m;
      var rest := ListKeys(m - {q});
      procs := rest + [q];
    }
  }

  // The run serves these operations, and h is what its log is parsed to.
  ghost predicate Shows(worlds: seq<World>, steps: seq<Step>, size: nat, ds: seq<Done>, procs: seq<nat>, h: seq<Event<Value>>)
  {
    && IsRun(worlds, steps, size) && worlds[|steps|] == ServedWorld(ds, size)
    && ParsedFrom(PrintedAll(worlds[|steps|].events), procs, h)
  }

  // Its log has a verdict.
  lemma Shown(ds: seq<Done>, size: nat) returns (worlds: seq<World>, steps: seq<Step>, procs: seq<nat>, h: seq<Event<Value>>)
    requires AllServable(ds, size)
    ensures Shows(worlds, steps, size, ds, procs, h)
    ensures Linearizable(Etcd, h) <==> HerlihyWing(Observed(Readable(EventsOf(ds))).history)
  {
    worlds, steps := ServedRun(ds, size);
    var p := ParseLines(PrintedAll(EventsOf(ds)));
    procs := ListKeys(p.procIdMap);
    h := p.events + Closing(p.procIdMap, procs);
    hide IsRun, Linearizable, HerlihyWing, Readable, Observed, EventsOf, PrintedAll;
    RecordedVerdict(worlds, steps, size, |steps|, procs, h);
  }

  function NarrowDone(ds: seq<Done>): seq<Done>
  {
    if ds == [] then []
    else NarrowDone(ds[..|ds| - 1]) + if ds[|ds| - 1].id < WIDE_ID then [ds[|ds| - 1]] else []
  }

  lemma NarrowDoneSnoc(ds: seq<Done>, d: Done)
    ensures NarrowDone(ds + [d]) == if d.id < WIDE_ID then NarrowDone(ds) + [d] else NarrowDone(ds)
  {
    assert (ds + [d])[..|ds|] == ds;
  }

  lemma NarrowSnoc(events: seq<LogEvent>, e: LogEvent)
    ensures Narrow(events + [e]) == if e.id < WIDE_ID then Narrow(events) + [e] else Narrow(events)
  {
    assert (events + [e])[..|events|] == events;
  }

  lemma {:induction false} NarrowServed(ds: seq<Done>)
    ensures Narrow(EventsOf(ds)) == EventsOf(NarrowDone(ds))
  {
    if ds != [] {
      var before, d := ds[..|ds| - 1], ds[|ds| - 1];
      NarrowServed(before);
      hide Narrow;
      var called, answered := InvokedEvent(d.id, d.op), CompletedEvent(d.id, d.op, d.got);
      NarrowSnoc(EventsOf(before), called);
      NarrowSnoc(EventsOf(before) + [called], answered);
      EventsSnoc(NarrowDone(before), d);
      assert NarrowDone(before) + [] == NarrowDone(before);
    }
  }

  // Larger than everything written.
  ghost predicate Unwritten(ds: seq<Done>, v: nat)
  {
    v != NO_VALUE && forall d :: d in ds && d.op.WriteOp? ==> d.op.value < v
  }

  lemma {:induction false} ServedBelow(ds: seq<Done>, v: nat)
    requires Unwritten(ds, v)
    ensures WritesBelow(EventsOf(ds), v)
  {
    if ds != [] {
      assert ds[|ds| - 1] in ds;
      ServedBelow(ds[..|ds| - 1], v);
    }
  }

  lemma LastUnwritten(ds: seq<Done>, d: Done)
    requires d.op == ReadOp && Unwritten(ds, d.got) && Disciplined(EventsOf(ds + [d]))
    ensures !HerlihyWing(Observed(EventsOf(ds + [d])).history)
  {
    hide Disciplined, HerlihyWing, Observed;
    var events := EventsOf(ds + [d]);
    EventsSnoc(ds, d);
    ServedBelow(ds, d.got);
    assert WritesBelow(events, d.got);
    UnwrittenAnswer(events, |events| - 1, d.got);
  }

  // What is seen of the operations in the log.
  ghost predicate SeenAs(ds: seq<Done>, seen: seq<Done>)
  {
    Clamped(EventsOf(NarrowDone(ds))) == EventsOf(seen)
  }

  lemma SeenOfServed(ds: seq<Done>, seen: seq<Done>)
    requires SeenAs(ds, seen)
    ensures Readable(EventsOf(ds)) == EventsOf(seen)
    ensures Disciplined(EventsOf(ds)) ==> Disciplined(EventsOf(seen))
  {
    hide Disciplined;
    NarrowServed(ds);
    if Disciplined(EventsOf(ds)) {
      NarrowDisciplined(EventsOf(ds));
      ClampedDisciplined(Narrow(EventsOf(ds)));
    }
  }

  // A last read of what was not written is not linearizable. If what is seen of it is, the log is
  // wrongly accepted.
  lemma WronglyAccepted(ds: seq<Done>, d: Done, seen: seq<Done>, size: nat)
    returns (worlds: seq<World>, steps: seq<Step>, procs: seq<nat>, h: seq<Event<Value>>)
    requires AllServable(ds + [d], size) && d.op == ReadOp && Unwritten(ds, d.got)
    requires SeenAs(ds + [d], seen) && Accepted(Ins(seen), Outs(seen), NIL)
    ensures Shows(worlds, steps, size, ds + [d], procs, h)
    ensures Linearizable(Etcd, h) && !HerlihyWing(Observed(worlds[|steps|].events).history)
  {
    hide HerlihyWing, Linearizable, Enabled, Next, ParsedFrom, PrintedAll, Disciplined, Observed, Sequential, Accepted,
      AllServable, SeenAs, Readable, EventsOf;
    worlds, steps, procs, h := Shown(ds + [d], size);
    SeenOfServed(ds + [d], seen);
    ObservedServed(seen);
    SequentialOk(Ins(seen), Outs(seen));
    RunIsDisciplined(worlds, steps, size, |steps|);
    LastUnwritten(ds, d);
  }

  lemma WronglyRejected(ds: seq<Done>, seen: seq<Done>, d: Done, size: nat)
    returns (worlds: seq<World>, steps: seq<Step>, procs: seq<nat>, h: seq<Event<Value>>)
    requires AllServable(ds, size) && Accepted(Ins(ds), Outs(ds), NIL)
    requires SeenAs(ds, seen + [d]) && d.op == ReadOp && Unwritten(seen, d.got)
    ensures Shows(worlds, steps, size, ds, procs, h)
    ensures !Linearizable(Etcd, h) && HerlihyWing(Observed(worlds[|steps|].events).history)
  {
    hide HerlihyWing, Linearizable, Enabled, Next, ParsedFrom, PrintedAll, Disciplined, Observed, Sequential, Accepted,
      AllServable, SeenAs, Readable, EventsOf;
    worlds, steps, procs, h := Shown(ds, size);
    ObservedServed(ds);
    SequentialOk(Ins(ds), Outs(ds));
    SeenOfServed(ds, seen + [d]);
    RunIsDisciplined(worlds, steps, size, |steps|);
    LastUnwritten(seen, d);
  }

  function ClampDone(d: Done): Done
  {
    Done(d.id, if d.op.WriteOp? then WriteOp(Atoi(d.op.value)) else ReadOp, if d.got == NO_VALUE then d.got else Atoi(d.got))
  }

  function ClampedDone(ds: seq<Done>): seq<Done>
  {
    seq(|ds|, k requires 0 <= k < |ds| => ClampDone(ds[k]))
  }

  lemma ClampTwo(events: seq<LogEvent>, e: LogEvent, f: LogEvent)
    ensures Clamped(events + [e] + [f]) == Clamped(events) + [Clamp(e)] + [Clamp(f)]
  {}

  lemma {:induction false} ClampServed(ds: seq<Done>)
    requires forall d :: d in ds && d.op.WriteOp? ==> d.op.value < NO_VALUE
    ensures Clamped(EventsOf(ds)) == EventsOf(ClampedDone(ds))
  {
    if ds != [] {
      var before, d := ds[..|ds| - 1], ds[|ds| - 1];
      ClampServed(before);
      ClampTwo(EventsOf(before), InvokedEvent(d.id, d.op), CompletedEvent(d.id, d.op, d.got));
      assert d in ds;
      assert ClampedDone(ds) == ClampedDone(before) + [ClampDone(d)];
      EventsSnoc(ClampedDone(before), ClampDone(d));
    }
  }

  // Process 1000 reads what nobody wrote. The log shows nothing of it and is accepted.
  lemma WideReadAccepted(size: nat)
    returns (worlds: seq<World>, steps: seq<Step>, procs: seq<nat>, h: seq<Event<Value>>)
    requires size > WIDE_ID
    ensures IsRun(worlds, steps, size) && ParsedFrom(PrintedAll(worlds[|steps|].events), procs, h)
    ensures worlds[|steps|].value <= MAX_INT
    ensures Linearizable(Etcd, h) && !HerlihyWing(Observed(worlds[|steps|].events).history)
  {
    var read := Done(WIDE_ID, ReadOp, 7);
    NarrowDoneSnoc([], read);
    CounterSnoc([], read);
    NothingServed();
    assert Clamped([]) == [];
    hide HerlihyWing, Linearizable, IsRun, ParsedFrom, PrintedAll, Observed, NarrowDone, EventsOf;
    worlds, steps, procs, h := WronglyAccepted([], read, [], size);
  }

  lemma TwoAccepted(ins: seq<Value>, outs: seq<Value>)
    requires |ins| == |outs| == 2 && ins[0].Input? && ins[0].op == WRITE && outs[0].Output?
    requires ins[1] == GET && outs[1] == Output(false, true, ins[0].arg1, false)
    ensures Accepted(ins, outs, NIL)
  {
    var v := ins[0].arg1;
    assert Accepted(ins[1..][1..], outs[1..][1..], v);
    assert Accepted(ins[1..], outs[1..], v);
  }

  // Process 1000 writes and process 0 reads what was written. The log has the read only and is
  // rejected.
  lemma WideWriteRejected(size: nat)
    returns (worlds: seq<World>, steps: seq<Step>, procs: seq<nat>, h: seq<Event<Value>>)
    requires size > WIDE_ID
    ensures IsRun(worlds, steps, size) && ParsedFrom(PrintedAll(worlds[|steps|].events), procs, h)
    ensures worlds[|steps|].value <= MAX_INT
    ensures !Linearizable(Etcd, h) && HerlihyWing(Observed(worlds[|steps|].events).history)
  {
    var write, read := Done(WIDE_ID, WriteOp(1), 0), Done(0, ReadOp, 1);
    var ds := [write] + [read];
    NarrowDoneSnoc([], write);
    NarrowDoneSnoc([write], read);
    CounterSnoc([], write);
    CounterSnoc([write], read);
    assert [] + [write] == [write] && ds[..0] == [] && ds[..1] == [write];
    assert Servable(ds, 0, size) && Servable(ds, 1, size);
    TwoAccepted(Ins(ds), Outs(ds));
    ClampServed([] + [read]);
    assert ClampedDone([] + [read]) == [] + [read];
    hide HerlihyWing, Linearizable, IsRun, ParsedFrom, PrintedAll, Observed, Accepted, NarrowDone, EventsOf;
    worlds, steps, procs, h := WronglyRejected(ds, [], read, size);
  }

  // Process 0 writes 1 to n.
  function Writes(n: nat): seq<Done>
  {
    seq(n, k requires 0 <= k < n => Done(0, WriteOp(k + 1), 0))
  }

  lemma {:induction false} WritesCounted(n: nat)
    ensures Counter(Writes(n)) == n + 1 && NarrowDone(Writes(n)) == Writes(n)
  {
    if n == 0 {
      assert Writes(n) == [];
    } else {
      hide Counter, NarrowDone;
      WritesCounted(n - 1);
      assert Writes(n) == Writes(n - 1) + [Done(0, WriteOp(n), 0)];
      CounterSnoc(Writes(n - 1), Done(0, WriteOp(n), 0));
      NarrowDoneSnoc(Writes(n - 1), Done(0, WriteOp(n), 0));
    }
  }

  lemma {:induction false} WritesAccepted(n: nat, k: nat, ins: seq<Value>, outs: seq<Value>)
    requires k <= n && ins == Ins(Writes(n) + [Done(0, ReadOp, n)]) && outs == Outs(Writes(n) + [Done(0, ReadOp, n)])
    requires 0 < n < NO_VALUE
    ensures Accepted(ins[k..], outs[k..], if k == 0 then NIL else k)
    decreases n - k
  {
    assert ins[k..][1..] == ins[k + 1..] && outs[k..][1..] == outs[k + 1..];
    if k < n {
      WritesAccepted(n, k + 1, ins, outs);
      assert ins[k] == Input(WRITE, k + 1, 0);
    } else {
      assert ins[k] == GET && outs[k] == Output(false, true, n, false);
      assert Accepted(ins[k + 1..], outs[k + 1..], n);
    }
  }

  lemma WritesServable(n: nat, d: Done)
    requires d.id == 0 && d.op == ReadOp && d.got <= NO_VALUE && n + 1 < NO_VALUE
    ensures AllServable(Writes(n) + [d], 1)
  {
    var ds := Writes(n) + [d];
    forall k: nat | k < |ds|
      ensures Servable(ds, k, 1)
    {
      if k < n {
        assert ds[..k] == Writes(k);
        WritesCounted(k);
      }
    }
  }

  // Process 0 writes 1 to 2^63 - 1 and reads 2^63, which nobody wrote. In the log that is the last
  // value written, and is accepted.
  lemma LargeReadAccepted() returns (worlds: seq<World>, steps: seq<Step>, procs: seq<nat>, h: seq<Event<Value>>)
    ensures IsRun(worlds, steps, 1) && ParsedFrom(PrintedAll(worlds[|steps|].events), procs, h)
    ensures worlds[|steps|].value == MAX_INT + 1
    ensures Linearizable(Etcd, h) && !HerlihyWing(Observed(worlds[|steps|].events).history)
  {
    hide HerlihyWing, Linearizable, IsRun, ParsedFrom, PrintedAll, Observed, Accepted, NarrowDone, EventsOf, Counter, AllServable;
    var ds, read, shown := Writes(MAX_INT), Done(0, ReadOp, MAX_INT + 1), Done(0, ReadOp, MAX_INT);
    WritesServable(MAX_INT, read);
    WritesCounted(MAX_INT);
    CounterSnoc(ds, read);
    NarrowDoneSnoc(ds, read);
    ClampServed(ds + [read]);
    assert ClampedDone(ds + [read]) == ds + [shown];
    WritesAccepted(MAX_INT, 0, Ins(ds + [shown]), Outs(ds + [shown]));
    assert Ins(ds + [shown])[0..] == Ins(ds + [shown]) && Outs(ds + [shown])[0..] == Outs(ds + [shown]);
    worlds, steps, procs, h := WronglyAccepted(ds, read, ds + [shown], 1);
  }
}
