// A recorded log, parsed, is a history the checker can take; and the verdict on it is the verdict
// on what was observed.
module RecordedHistory {
  import opened History
  import opened Register
  import opened JepsenLog
  import opened Recorder
  import opened Checker

  // ----- what was observed

  // The invocations and the answers; a failed operation was not answered. Operations are numbered
  // by their invocations; open: the operation each process is at.
  datatype Seen = Seen(history: seq<Event<Value>>, next: nat, open: map<nat, nat>)

  function OpInput(op: Op): Value
  {
    match op
    case ReadOp => Input(READ, 0, 0)
    case WriteOp(v) => Input(WRITE, v, 0)
  }

  function OpOutput(e: LogEvent): Value
  {
    if e.eventType == WriteEvent then Output(false, false, 0, false)
    else if e.value == NO_VALUE then Output(false, false, 0, false)
    else Output(false, true, e.value, false)
  }

  function Observe(seen: Seen, e: LogEvent): Seen
  {
    match e.eventResult
    case WasInvoked => Seen(seen.history + [Call(OpInput(OpOf(e)), seen.next)], seen.next + 1, seen.open[e.id := seen.next])
    case WasCompleted =>
      if e.id in seen.open then seen.(history := seen.history + [Return(OpOutput(e), seen.open[e.id])]) else seen
    case WasFailed => seen
  }

  function Observed(events: seq<LogEvent>): Seen
  {
    if events == [] then Seen([], 0, map[]) else Observe(Observed(events[..|events| - 1]), events[|events| - 1])
  }

  // ----- the parser follows the recorder

  // No value is too large for the parser's integers.
  ghost predicate SmallValue(e: LogEvent)
  {
    e.value <= MAX_INT || e.value == NO_VALUE
  }

  ghost predicate SmallValues(events: seq<LogEvent>)
  {
    forall e :: e in events ==> SmallValue(e)
  }

  // Processes whose operation the parser still waits for: a failed write leaves no readable line.
  ghost predicate Awaited(s: Status)
  {
    s.Busy? || (s.Dead? && s.op.WriteOp?)
  }

  // Only reads have returns with unknown answers.
  ghost predicate UnknownReads(h: seq<Event<Value>>)
  {
    forall e :: e in h && e.Return? && e.value.Output? && e.value.unknown ==> Call(Input(READ, 0, 0), e.id) in h
  }

  ghost predicate EventsTyped(h: seq<Event<Value>>)
  {
    forall e :: e in h ==> if e.Call? then e.value.Input? else e.value.Output?
  }

  // The events without the returns with unknown answers.
  function KnownOnly(h: seq<Event<Value>>): seq<Event<Value>>
  {
    if h == [] then []
    else
      var e, rest := h[|h| - 1], KnownOnly(h[..|h| - 1]);
      if e.Return? && e.value.Output? && e.value.unknown then rest else rest + [e]
  }

  ghost predicate FollowsAt(events: seq<LogEvent>, p: Parser, seen: Seen, q: nat)
  {
    var s := StatusOf(events, q);
    && (q in p.procIdMap <==> Awaited(s))
    && (s.Busy? ==> q in seen.open && q in p.procIdMap && seen.open[q] == p.procIdMap[q]
                    && Call(OpInput(s.op), p.procIdMap[q]) in p.events)
  }

  ghost predicate Follows(events: seq<LogEvent>, p: Parser, seen: Seen)
  {
    && ParserOk(p) && EventsTyped(p.events) && UnknownReads(p.events)
    && KnownOnly(p.events) == seen.history && p.next == seen.next
    && forall q :: FollowsAt(events, p, seen, q)
  }

  lemma KnownOnlySnoc(h: seq<Event<Value>>, e: Event<Value>)
    ensures KnownOnly(h + [e]) == if e.Return? && e.value.Output? && e.value.unknown then KnownOnly(h) else KnownOnly(h) + [e]
  {
    assert (h + [e])[..|h|] == h;
  }

  lemma FollowInvoked(events: seq<LogEvent>, p: Parser, seen: Seen, e: LogEvent)
    requires Follows(events, p, seen) && Fits(events, e) && SmallValue(e) && e.id < WIDE_ID && e.eventResult.WasInvoked?
    ensures Follows(events + [e], ParseLine(p, Printed(e)), Observe(seen, e))
  {
    hide ParserOk, StatusOf, KnownOnly;
    var p', inp := ParseLine(p, Printed(e)), OpInput(OpOf(e));
    assert FollowsAt(events, p, seen, e.id);
    assert p' == Begun(p, e.id, inp);
    BegunOk(p, e.id, inp);
    KnownOnlySnoc(p.events, Call(inp, p.next));
    forall q
      ensures FollowsAt(events + [e], p', Observe(seen, e), q)
    {
      assert FollowsAt(events, p, seen, q);
      StatusSnoc(events, e, q);
    }
  }

  lemma FollowEnded(events: seq<LogEvent>, p: Parser, seen: Seen, e: LogEvent)
    requires Follows(events, p, seen) && Fits(events, e) && SmallValue(e) && e.id < WIDE_ID && !e.eventResult.WasInvoked?
    ensures Follows(events + [e], ParseLine(p, Printed(e)), Observe(seen, e))
  {
    hide ParserOk, StatusOf, KnownOnly;
    var p' := ParseLine(p, Printed(e));
    assert FollowsAt(events, p, seen, e.id);
    if !(e.eventResult.WasFailed? && e.eventType == WriteEvent) {
      var out := if e.eventResult.WasFailed? then UNKNOWN else OpOutput(e);
      assert p' == Ended(p, e.id, out);
      EndedOk(p, e.id, out);
      KnownOnlySnoc(p.events, Return(out, p.procIdMap[e.id]));
    }
    forall q
      ensures FollowsAt(events + [e], p', Observe(seen, e), q)
    {
      assert FollowsAt(events, p, seen, q);
      StatusSnoc(events, e, q);
    }
  }

  ghost predicate NarrowIds(events: seq<LogEvent>)
  {
    forall e :: e in events ==> e.id < WIDE_ID
  }

  lemma ShorterDisciplined(events: seq<LogEvent>)
    requires Disciplined(events) && events != []
    ensures var n := |events| - 1;
            Disciplined(events[..n]) && Fits(events[..n], events[n]) && events == events[..n] + [events[n]]
  {
    hide Fits;
    var n := |events| - 1;
    forall i | 0 <= i < n
      ensures Fits(events[..n][..i], events[..n][i])
    {
      assert events[..n][..i] == events[..i];
    }
  }

  lemma LastEvent(events: seq<LogEvent>)
    requires Disciplined(events) && NarrowIds(events) && SmallValues(events) && events != []
    ensures var n := |events| - 1;
            && Disciplined(events[..n]) && NarrowIds(events[..n]) && SmallValues(events[..n]) && SmallValue(events[n])
            && Fits(events[..n], events[n]) && events[n].id < WIDE_ID && events == events[..n] + [events[n]]
  {
    hide Fits, Disciplined;
    ShorterDisciplined(events);
  }

  lemma ParsedSnoc(events: seq<LogEvent>)
    requires events != []
    ensures var n := |events| - 1;
            ParseLines(PrintedAll(events)) == ParseLine(ParseLines(PrintedAll(events[..n])), Printed(events[n]))
  {
    hide ParseLine, Printed;
    assert PrintedAll(events)[..|events| - 1] == PrintedAll(events[..|events| - 1]);
  }

  lemma FollowsStart()
    ensures Follows([], Parser([], 0, map[]), Seen([], 0, map[]))
  {
    var none: map<nat, nat> := map[];
    assert none.Values == {};
    assert ParserOk(Parser([], 0, none));
  }

  lemma {:induction false} ParserFollows(events: seq<LogEvent>)
    requires Disciplined(events) && NarrowIds(events) && SmallValues(events)
    ensures Follows(events, ParseLines(PrintedAll(events)), Observed(events))
  {
    hide Follows, Fits, ParseLine, Printed, Observe, Disciplined, NarrowIds, SmallValues, SmallValue;
    if events == [] {
      assert PrintedAll(events) == [];
      FollowsStart();
    } else {
      var n := |events| - 1;
      LastEvent(events);
      ParserFollows(events[..n]);
      ParsedSnoc(events);
      hide ParseLines, PrintedAll;
      var p, seen := ParseLines(PrintedAll(events[..n])), Observed(events[..n]);
      if events[n].eventResult.WasInvoked? {
        FollowInvoked(events[..n], p, seen, events[n]);
      } else {
        FollowEnded(events[..n], p, seen, events[n]);
      }
    }
  }

  // ----- the verdict

  ghost function UnknownIds(h: seq<Event<Value>>): set<nat>
  {
    set x | x in Returned(h) && UnknownIn(h, x)
  }

  lemma ReturnAnswer(h: seq<Event<Value>>, i: nat)
    requires Complete(h) && EventsTyped(h) && i < |h|
    ensures h[i].Return? ==> h[i].value.Output? && (h[i].id in UnknownIds(h) <==> h[i].value.unknown)
  {
    CompleteMaps(h, i);
    assert h[i] in h;
  }

  // In a complete history taking out the returns with unknown answers is taking out the returns of
  // the operations answered so.
  lemma {:induction false} KnownOnlyIsStripped(h: seq<Event<Value>>, k: nat)
    requires Complete(h) && EventsTyped(h) && k <= |h|
    ensures KnownOnly(h[..k]) == Stripped(h[..k], UnknownIds(h))
  {
    hide Complete, EventsTyped, Outputs, Returned;
    if k > 0 {
      KnownOnlyIsStripped(h, k - 1);
      var g, e := h[..k - 1], h[k - 1];
      assert h[..k] == g + [e] && h[..k][..k - 1] == g;
      ReturnAnswer(h, k - 1);
    }
  }

  lemma {:induction false} KnownOnlyTail(h: seq<Event<Value>>, tail: seq<Event<Value>>)
    requires forall e :: e in tail ==> e.Return? && e.value == UNKNOWN
    ensures KnownOnly(h + tail) == KnownOnly(h)
  {
    if tail == [] {
      assert h + tail == h;
    } else {
      var n := |tail| - 1;
      KnownOnlyTail(h, tail[..n]);
      assert h + tail == (h + tail[..n]) + [tail[n]];
      KnownOnlySnoc(h + tail[..n], tail[n]);
    }
  }

  lemma ClosingIsUnknown(m: map<nat, nat>, procs: seq<nat>)
    requires forall q :: q in procs ==> q in m
    ensures forall e :: e in Closing(m, procs) ==> e.Return? && e.value == UNKNOWN
  {}

  lemma StillTyped(h: seq<Event<Value>>, tail: seq<Event<Value>>)
    requires EventsTyped(h) && forall e :: e in tail ==> e.Return? && e.value == UNKNOWN
    ensures EventsTyped(h + tail)
  {}

  lemma UnknownLast(g: seq<Event<Value>>, tail: seq<Event<Value>>, x: nat, y: nat)
    requires UnknownReads(g) && forall e :: e in tail ==> e.Return? && e.value == UNKNOWN
    requires Complete(g + tail) && EventsTyped(g + tail)
    requires x in UnknownIds(g + tail) && Precedes(g + tail, x, y)
    ensures IsRead(Inputs(g + tail), x)
  {
    var h := g + tail;
    var i: nat, j: nat :| 0 <= i < j && IsReturnOf(h, i, x) && IsCallOf(h, j, y);
    forall k: nat | |g| <= k < |h|
      ensures h[k].Return?
    {
      assert h[k] in tail;
    }
    ReturnAnswer(h, i);
    assert g[i] == h[i] && g[i] in g;
    var k :| 0 <= k < |g| && g[k] == Call(Input(READ, 0, 0), x);
    assert h[k] == g[k];
    CompleteMaps(h, k);
  }

  lemma UnknownEnd(g: seq<Event<Value>>, tail: seq<Event<Value>>)
    requires UnknownReads(g) && forall e :: e in tail ==> e.Return? && e.value == UNKNOWN
    requires Complete(g + tail) && EventsTyped(g + tail)
    ensures CompletedWith(g + tail, UnknownIds(g + tail))
  {
    var h := g + tail;
    var p := UnknownIds(h);
    CompleteIds(h);
    forall x | x in Inputs(h)
      ensures Inputs(h)[x].Input?
    {
      assert h[CallPos(h, x)] in h;
    }
    forall x, y | x in p && Precedes(h, x, y)
      ensures IsRead(Inputs(h), x)
    {
      UnknownLast(g, tail, x, y);
    }
  }

  // Whatever the interleaving, a recorded log parses to a history with one call and one later
  // return for every operation, completed as it should be: what nobody heard back from returns at
  // the end, or is a read.
  lemma RecordedIsComplete(events: seq<LogEvent>, procs: seq<nat>, h: seq<Event<Value>>)
    requires Disciplined(events) && NarrowIds(events) && SmallValues(events) && ParsedFrom(PrintedAll(events), procs, h)
    ensures Complete(h) && CompletedWith(h, UnknownIds(h))
    ensures Stripped(h, UnknownIds(h)) == Observed(events).history
  {
    hide Disciplined, SmallValues, ParserOk, UnknownReads, Complete, EventsTyped, FollowsAt, Stripped, KnownOnly;
    ParserFollows(events);
    var p := ParseLines(PrintedAll(events));
    var tail := Closing(p.procIdMap, procs);
    ClosedOk(p, procs);
    ClosingIsUnknown(p.procIdMap, procs);
    KnownOnlyTail(p.events, tail);
    StillTyped(p.events, tail);
    assert h[..|h|] == h;
    KnownOnlyIsStripped(h, |h|);
    UnknownEnd(p.events, tail);
  }

  // ----- wide process numbers

  // The events of the processes whose number fits the column.
  function Narrow(events: seq<LogEvent>): seq<LogEvent>
  {
    if events == [] then []
    else
      var e, rest := events[|events| - 1], Narrow(events[..|events| - 1]);
      if e.id < WIDE_ID then rest + [e] else rest
  }

  lemma {:induction false} NarrowStatus(events: seq<LogEvent>, id: nat)
    ensures id < WIDE_ID ==> StatusOf(Narrow(events), id) == StatusOf(events, id)
  {
    if events != [] && id < WIDE_ID {
      var before, e := events[..|events| - 1], events[|events| - 1];
      NarrowStatus(before, id);
      StatusSnoc(Narrow(before), e, id);
      assert before + [e] == events;
      StatusSnoc(before, e, id);
    }
  }

  lemma {:induction false} NarrowDisciplined(events: seq<LogEvent>)
    requires Disciplined(events)
    ensures Disciplined(Narrow(events)) && NarrowIds(Narrow(events))
  {
    if events != [] {
      var n := |events| - 1;
      var before, e := events[..n], events[n];
      ShorterDisciplined(events);
      NarrowDisciplined(before);
      if e.id < WIDE_ID {
        NarrowStatus(before, e.id);
        assert Fits(before, e);
        DisciplinedSnoc(Narrow(before), e);
      }
    }
  }

  lemma WideUnread(p: Parser, e: LogEvent)
    requires e.id >= WIDE_ID
    ensures ParseLine(p, Printed(e)) == p
  {}

  // What processes with wide numbers did is lost in the log, and nothing else is.
  lemma {:induction false} WideIsLost(events: seq<LogEvent>)
    ensures ParseLines(PrintedAll(events)) == ParseLines(PrintedAll(Narrow(events)))
  {
    hide Printed, ParseLine;
    if events != [] {
      var n := |events| - 1;
      WideIsLost(events[..n]);
      ParsedSnoc(events);
      if events[n].id < WIDE_ID {
        var more := Narrow(events);
        assert more[..|more| - 1] == Narrow(events[..n]);
        ParsedSnoc(more);
      } else {
        WideUnread(ParseLines(PrintedAll(events[..n])), events[n]);
      }
    }
  }

  lemma {:induction false} AllNarrow(events: seq<LogEvent>)
    requires NarrowIds(events)
    ensures Narrow(events) == events
  {
    if events != [] {
      AllNarrow(events[..|events| - 1]);
    }
  }

  // ----- large values

  // The event with its value as the parser's integers hold it.
  function Clamp(e: LogEvent): LogEvent
  {
    if e.value == NO_VALUE then e else e.(value := Atoi(e.value))
  }

  function Clamped(events: seq<LogEvent>): seq<LogEvent>
  {
    seq(|events|, i requires 0 <= i < |events| => Clamp(events[i]))
  }

  function ClampStatus(s: Status): Status
  {
    match s
    case Quiet => Quiet
    case Busy(WriteOp(v)) => Busy(WriteOp(Atoi(v)))
    case Dead(WriteOp(v)) => Dead(WriteOp(Atoi(v)))
    case _ => s
  }

  lemma ClampedSnoc(events: seq<LogEvent>)
    requires events != []
    ensures var n := |events| - 1; Clamped(events) == Clamped(events[..n]) + [Clamp(events[n])]
  {}

  lemma ClampFits(before: seq<LogEvent>, e: LogEvent)
    requires Fits(before, e) && forall q :: StatusOf(Clamped(before), q) == ClampStatus(StatusOf(before, q))
    ensures Fits(Clamped(before), Clamp(e)) && SmallValue(Clamp(e)) && Clamp(e).id == e.id
  {
    hide StatusOf, Clamped;
    assert StatusOf(Clamped(before), e.id) == ClampStatus(StatusOf(before, e.id));
  }

  lemma {:induction false} ClampedDisciplined(events: seq<LogEvent>)
    requires Disciplined(events)
    ensures Disciplined(Clamped(events)) && SmallValues(Clamped(events))
    ensures forall q :: StatusOf(Clamped(events), q) == ClampStatus(StatusOf(events, q))
  {
    if events == [] {
      assert Clamped(events) == [];
    } else {
      var n := |events| - 1;
      var before, e := events[..n], events[n];
      assert events == before + [e];
      ShorterDisciplined(events);
      ClampedDisciplined(before);
      ClampedSnoc(events);
      assert Fits(before, e);
      ClampFits(before, e);
      hide StatusOf, Fits, Disciplined;
      DisciplinedSnoc(Clamped(before), Clamp(e));
      forall q
        ensures StatusOf(Clamped(events), q) == ClampStatus(StatusOf(events, q))
      {
        StatusSnoc(before, e, q);
        StatusSnoc(Clamped(before), Clamp(e), q);
      }
    }
  }

  // The parser makes the same of an event and of the event clamped.
  lemma ClampRead(p: Parser, e: LogEvent)
    ensures ParseLine(p, Printed(Clamp(e))) == ParseLine(p, Printed(e))
  {}

  lemma {:induction false} ClampedIsRead(events: seq<LogEvent>)
    ensures ParseLines(PrintedAll(Clamped(events))) == ParseLines(PrintedAll(events))
  {
    hide Printed, ParseLine, Clamp;
    if events == [] {
      assert Clamped(events) == [];
    } else {
      var n := |events| - 1;
      ClampedIsRead(events[..n]);
      ClampedSnoc(events);
      var clamped := Clamped(events);
      assert clamped[..|clamped| - 1] == Clamped(events[..n]) && clamped[|clamped| - 1] == Clamp(events[n]);
      ParsedSnoc(events);
      ParsedSnoc(clamped);
      ClampRead(ParseLines(PrintedAll(events[..n])), events[n]);
    }
  }

  lemma AllSmall(events: seq<LogEvent>)
    requires SmallValues(events)
    ensures Clamped(events) == events
  {
    forall i | 0 <= i < |events|
      ensures Clamped(events)[i] == events[i]
    {
      assert SmallValue(events[i]);
    }
  }

  lemma ClampedNarrow(events: seq<LogEvent>)
    requires NarrowIds(events)
    ensures NarrowIds(Clamped(events))
  {}

  // ----- what the observed history is

  // The operation a busy process is at was called and has not returned.
  ghost predicate SeenAt(events: seq<LogEvent>, seen: Seen, q: nat)
  {
    var s := StatusOf(events, q);
    s.Busy? ==>
      && q in seen.open && Call(OpInput(s.op), seen.open[q]) in seen.history && seen.open[q] !in Returned(seen.history)
      && forall r :: r != q && StatusOf(events, r).Busy? && r in seen.open ==> seen.open[r] != seen.open[q]
  }

  ghost predicate ObservedInv(events: seq<LogEvent>, seen: Seen)
  {
    && CallsFirst(seen.history) && (forall e :: e in seen.history ==> e.id < seen.next)
    && forall q :: SeenAt(events, seen, q)
  }

  lemma SeenInvoked(events: seq<LogEvent>, seen: Seen, e: LogEvent)
    requires ObservedInv(events, seen) && Fits(events, e) && e.eventResult.WasInvoked?
    ensures ObservedInv(events + [e], Observe(seen, e))
  {
    hide StatusOf;
    var seen' := Observe(seen, e);
    InvokedSnoc(seen.history, Call(OpInput(OpOf(e)), seen.next));
    forall q
      ensures SeenAt(events + [e], seen', q)
    {
      assert SeenAt(events, seen, q) && SeenAt(events, seen, e.id);
      forall r
        ensures StatusOf(events + [e], r) == if r == e.id then Busy(OpOf(e)) else StatusOf(events, r)
        ensures SeenAt(events, seen, r)
      {
        StatusSnoc(events, e, r);
      }
    }
  }

  lemma SeenEnded(events: seq<LogEvent>, seen: Seen, e: LogEvent)
    requires ObservedInv(events, seen) && Fits(events, e) && !e.eventResult.WasInvoked?
    ensures ObservedInv(events + [e], Observe(seen, e))
    ensures e.eventResult.WasCompleted? ==>
              e.id in seen.open && Observe(seen, e).history == seen.history + [Return(OpOutput(e), seen.open[e.id])]
              && Call(OpInput(StatusOf(events, e.id).op), seen.open[e.id]) in seen.history
  {
    hide StatusOf;
    var seen' := Observe(seen, e);
    assert SeenAt(events, seen, e.id);
    if e.eventResult.WasCompleted? {
      InvokedSnoc(seen.history, Return(OpOutput(e), seen.open[e.id]));
      forall i | 0 <= i < |seen.history| && seen.history[i].id == seen.open[e.id]
        ensures seen.history[i].Call?
      {
      }
    }
    forall q
      ensures SeenAt(events + [e], seen', q)
    {
      assert SeenAt(events, seen, q);
      forall r
        ensures r != e.id ==> StatusOf(events + [e], r) == StatusOf(events, r)
        ensures !StatusOf(events + [e], e.id).Busy?
      {
        StatusSnoc(events, e, r);
        StatusSnoc(events, e, e.id);
      }
    }
  }

  lemma NothingSeen()
    ensures ObservedInv([], Seen([], 0, map[]))
  {}

  // What is observed has one call and one return at most for every operation.
  lemma {:induction false} ObservedOk(events: seq<LogEvent>)
    requires Disciplined(events)
    ensures ObservedInv(events, Observed(events))
  {
    hide ObservedInv, Fits, Observe, Disciplined;
    if events == [] {
      NothingSeen();
    } else {
      var n := |events| - 1;
      ShorterDisciplined(events);
      ObservedOk(events[..n]);
      if events[n].eventResult.WasInvoked? {
        SeenInvoked(events[..n], Observed(events[..n]), events[n]);
      } else {
        SeenEnded(events[..n], Observed(events[..n]), events[n]);
      }
    }
  }

  // ----- reading what nobody wrote

  const GET: Value := Input(READ, 0, 0)

  // A read, or a write of less than the bound.
  ghost predicate CallBelow(v: Value, bound: nat)
  {
    v == GET || (v.Input? && v.op == WRITE && 0 <= v.arg1 < bound && v.arg2 == 0)
  }

  ghost predicate CallsBelow(h: seq<Event<Value>>, bound: nat)
  {
    forall e :: e in h && e.Call? ==> CallBelow(e.value, bound)
  }

  ghost predicate WritesBelow(events: seq<LogEvent>, bound: nat)
  {
    forall e :: e in events && InvokesWrite(e) ==> e.value < bound
  }

  lemma {:induction false} ObservedBelow(events: seq<LogEvent>, bound: nat)
    requires WritesBelow(events, bound)
    ensures CallsBelow(Observed(events).history, bound)
  {
    if events != [] {
      var n := |events| - 1;
      assert events[n] in events;
      ObservedBelow(events[..n], bound);
    }
  }

  // An answered read was called, and returned with its answer.
  lemma {:induction false} AnsweredRead(events: seq<LogEvent>, k: nat) returns (x: nat)
    requires Disciplined(events) && k < |events|
    requires events[k].eventType == ReadEvent && events[k].eventResult.WasCompleted?
    ensures var h := Observed(events).history; Call(GET, x) in h && Return(OpOutput(events[k]), x) in h
  {
    hide ObservedInv, Disciplined, StatusOf;
    var n := |events| - 1;
    ShorterDisciplined(events);
    if k < n {
      x := AnsweredRead(events[..n], k);
    } else {
      ObservedOk(events[..n]);
      SeenEnded(events[..n], Observed(events[..n]), events[n]);
      x := Observed(events[..n]).open[events[n].id];
    }
  }

  lemma {:induction false} NeverRead(inp: Run, out: Run, s: int, order: seq<nat>, x: nat, bound: nat)
    requires s < bound && x in order && x in inp && x in out && inp[x] == GET
    requires out[x].Output? && out[x].there && !out[x].unknown && out[x].value >= bound
    requires forall y :: y in inp ==> CallBelow(inp[y], bound)
    ensures !Runs(inp, out, s, order)
    decreases |order|
  {
    if Runs(inp, out, s, order) && order[0] != x {
      NeverRead(inp, out, Register.Step(s, inp[order[0]], out[order[0]]).1, order[1..], x, bound);
    }
  }

  lemma InputsBelow(h: seq<Event<Value>>, bound: nat)
    requires CallsBelow(h, bound)
    ensures forall y :: y in Inputs(h) ==> CallBelow(Inputs(h)[y], bound)
  {
    forall y | y in Inputs(h)
      ensures CallBelow(Inputs(h)[y], bound)
    {
      assert h[CallPos(h, y)] in h;
    }
  }

  // A history in which a read was answered with more than was ever written is not linearizable.
  lemma UnwrittenRead(h: seq<Event<Value>>, x: nat, v: nat, bound: nat)
    requires CallsFirst(h) && CallsBelow(h, bound) && v >= bound
    requires Call(GET, x) in h && Return(Output(false, true, v, false), x) in h
    ensures !HerlihyWing(h)
  {
    hide Inputs, Outputs, CallsFirst, CallsBelow, CallBelow, NoDup, RespectsRealTime, Legal;
    var i :| 0 <= i < |h| && h[i] == Call(GET, x);
    var j :| 0 <= j < |h| && h[j] == Return(Output(false, true, v, false), x);
    EventMaps(h, i);
    EventMaps(h, j);
    InputsBelow(h, bound);
    assert x in Returned(h);
    hide Returned, Invoked;
    forall ops, out, order
      ensures !TookEffect(h, ops, out, order)
    {
      if TookEffect(h, ops, out, order) {
        NeverRead(Inputs(h), out, NIL, order, x, bound);
      }
    }
  }

  lemma UnwrittenAnswer(events: seq<LogEvent>, k: nat, bound: nat)
    requires Disciplined(events) && WritesBelow(events, bound) && k < |events|
    requires events[k].eventType == ReadEvent && events[k].eventResult.WasCompleted?
    requires bound <= events[k].value && events[k].value != NO_VALUE
    ensures !HerlihyWing(Observed(events).history)
  {
    hide Disciplined, HerlihyWing, WritesBelow, CallsBelow;
    var x := AnsweredRead(events, k);
    ObservedOk(events);
    ObservedBelow(events, bound);
    UnwrittenRead(Observed(events).history, x, events[k].value, bound);
  }

  // ----- what clamping does to the verdict

  function ClampInt(v: int): int
  {
    if v > MAX_INT then MAX_INT else v
  }

  function ClampValue(v: Value): Value
  {
    match v
    case Input(op, a, b) => if op == WRITE then Input(op, ClampInt(a), b) else v
    case Output(ok, there, value, unknown) => Output(ok, there, ClampInt(value), unknown)
  }

  function ClampEvent(e: Event<Value>): Event<Value>
  {
    match e
    case Call(v, x) => Call(ClampValue(v), x)
    case Return(v, x) => Return(ClampValue(v), x)
  }

  function ClampHistory(h: seq<Event<Value>>): seq<Event<Value>>
  {
    seq(|h|, i requires 0 <= i < |h| => ClampEvent(h[i]))
  }

  function ClampSeen(seen: Seen): Seen
  {
    seen.(history := ClampHistory(seen.history))
  }

  lemma ClampObserve(seen: Seen, e: LogEvent)
    requires e.eventResult.WasInvoked? ==> e.value < NO_VALUE
    ensures Observe(ClampSeen(seen), Clamp(e)) == ClampSeen(Observe(seen, e))
  {
    var seen', h := Observe(seen, e), seen.history;
    if seen'.history != h {
      assert seen'.history == h + [seen'.history[|h|]];
      assert ClampHistory(seen'.history) == ClampHistory(h) + [ClampEvent(seen'.history[|h|])];
    }
  }

  lemma {:induction false} ClampObserved(events: seq<LogEvent>)
    requires Disciplined(events)
    ensures Observed(Clamped(events)) == ClampSeen(Observed(events))
  {
    hide Observe, Clamp, ClampEvent, StatusOf;
    if events == [] {
      assert Clamped(events) == [] && ClampHistory([]) == [];
    } else {
      var n, clamped := |events| - 1, Clamped(events);
      ShorterDisciplined(events);
      ClampObserved(events[..n]);
      ClampedSnoc(events);
      assert clamped[..n] == Clamped(events[..n]) && clamped[n] == Clamp(events[n]);
      ClampObserve(Observed(events[..n]), events[n]);
    }
  }

  lemma ClampSets(h: seq<Event<Value>>)
    ensures Invoked(ClampHistory(h)) == Invoked(h) && Returned(ClampHistory(h)) == Returned(h)
    ensures forall x, y :: Precedes(ClampHistory(h), x, y) <==> Precedes(h, x, y)
    ensures CallsFirst(h) ==> CallsFirst(ClampHistory(h))
  {
    var g := ClampHistory(h);
    assert forall i :: 0 <= i < |h| ==> g[i].id == h[i].id && (g[i].Call? <==> h[i].Call?);
    assert forall i, x :: IsCallOf(g, i, x) <==> IsCallOf(h, i, x);
    assert forall i, x :: IsReturnOf(g, i, x) <==> IsReturnOf(h, i, x);
  }

  lemma ClampMaps(h: seq<Event<Value>>)
    requires CallsFirst(h)
    ensures Invoked(ClampHistory(h)) == Invoked(h) && Returned(ClampHistory(h)) == Returned(h)
    ensures Inputs(h).Keys == Inputs(ClampHistory(h)).Keys == Invoked(h)
    ensures Outputs(h).Keys == Outputs(ClampHistory(h)).Keys == Returned(h)
    ensures forall x :: x in Invoked(h) ==> Inputs(ClampHistory(h))[x] == ClampValue(Inputs(h)[x])
    ensures forall x :: x in Returned(h) ==> Outputs(ClampHistory(h))[x] == ClampValue(Outputs(h)[x])
  {
    ClampSets(h);
    var g := ClampHistory(h);
    forall x | x in Invoked(h)
      ensures Inputs(g)[x] == ClampValue(Inputs(h)[x])
    {
      EventMaps(g, CallPos(h, x));
    }
    forall x | x in Returned(h)
      ensures Outputs(g)[x] == ClampValue(Outputs(h)[x])
    {
      EventMaps(g, ReturnPos(h, x));
    }
  }

  lemma {:induction false} ClampRuns(inp: Run, out: Run, inp': Run, out': Run, s: int, order: seq<nat>, bound: nat)
    requires Runs(inp, out, s, order) && forall x :: x in order && x in inp ==> CallBelow(inp[x], bound)
    requires forall x :: x in order && x in inp ==> x in inp' && inp'[x] == ClampValue(inp[x])
    requires forall x :: x in order && x in out ==> x in out' && out'[x] == ClampValue(out[x])
    ensures Runs(inp', out', ClampInt(s), order)
    decreases |order|
  {
    if order != [] {
      var x := order[0];
      ClampRuns(inp, out, inp', out', Register.Step(s, inp[x], out[x]).1, order[1..], bound);
    }
  }

  function ClampRun(out: Run): Run
  {
    map x | x in out :: ClampValue(out[x])
  }

  lemma ClampLinearization(h: seq<Event<Value>>, ops: set<nat>, out: Run, order: seq<nat>, bound: nat)
    requires CallsFirst(h) && CallsBelow(h, bound) && ops <= Invoked(h)
    requires IsLinearizationOf(Etcd, h, out, ops, NIL, order)
    ensures IsLinearizationOf(Etcd, ClampHistory(h), ClampRun(out), ops, NIL, order)
  {
    hide Inputs, Outputs, Invoked, Returned, CallsBelow, CallsFirst, Precedes, ClampHistory, ClampValue, CallBelow, NoDup, Legal;
    ClampSets(h);
    ClampMaps(h);
    InputsBelow(h, bound);
    ClampRuns(Inputs(h), out, Inputs(ClampHistory(h)), ClampRun(out), NIL, order, bound);
  }

  lemma ClampTookEffect(h: seq<Event<Value>>, ops: set<nat>, out: Run, order: seq<nat>, bound: nat)
    requires CallsFirst(h) && CallsBelow(h, bound) && TookEffect(h, ops, out, order)
    ensures TookEffect(ClampHistory(h), ops, ClampRun(out), order)
  {
    hide Inputs, Outputs, Invoked, Returned, CallsBelow, CallsFirst, ClampHistory, IsLinearizationOf;
    ClampMaps(h);
    ClampLinearization(h, ops, out, order, bound);
  }

  // A history stays linearizable when its values are clamped.
  lemma ClampedAccepted(h: seq<Event<Value>>, bound: nat)
    requires CallsFirst(h) && CallsBelow(h, bound) && HerlihyWing(h)
    ensures HerlihyWing(ClampHistory(h))
  {
    hide TookEffect;
    var ops, out, order :| TookEffect(h, ops, out, order);
    ClampTookEffect(h, ops, out, order, bound);
  }

  lemma {:induction false} SomeBound(events: seq<LogEvent>) returns (bound: nat)
    ensures WritesBelow(events, bound)
  {
    if events == [] {
      bound := 0;
    } else {
      var n := |events| - 1;
      bound := SomeBound(events[..n]);
      bound := bound + events[n].value + 1;
    }
  }

  // Clamping never turns a linearizable history into one that is not.
  lemma ClampingForgives(events: seq<LogEvent>)
    requires Disciplined(events) && HerlihyWing(Observed(events).history)
    ensures HerlihyWing(Observed(Clamped(events)).history)
  {
    hide Disciplined, HerlihyWing, CallsBelow, Clamped, ClampHistory;
    var bound := SomeBound(events);
    ObservedBelow(events, bound);
    ObservedOk(events);
    ClampedAccepted(Observed(events).history, bound);
    ClampObserved(events);
  }

  lemma LargeIsRead(events: seq<LogEvent>, value: nat) returns (k: nat)
    requires Disciplined(events) && value <= MAX_INT && !SmallValues(events)
    requires forall e :: e in events && e.eventType == WriteEvent ==> e.value < value
    ensures k < |events| && events[k].eventType == ReadEvent && events[k].eventResult.WasCompleted?
    ensures MAX_INT < events[k].value != NO_VALUE
  {
    k :| 0 <= k < |events| && !SmallValue(events[k]);
    assert Fits(events[..k], events[k]);
  }

  // Nor the other way round, while the counter of written values is not above the largest integer.
  lemma ClampingIsExact(events: seq<LogEvent>, value: nat)
    requires Disciplined(events) && value <= MAX_INT
    requires forall e :: e in events && e.eventType == WriteEvent ==> e.value < value
    ensures HerlihyWing(Observed(Clamped(events)).history) <==> HerlihyWing(Observed(events).history)
  {
    hide Disciplined, HerlihyWing, SmallValues;
    if SmallValues(events) {
      AllSmall(events);
    } else {
      var k := LargeIsRead(events, value);
      UnwrittenAnswer(events, k, MAX_INT);
      ClampedDisciplined(events);
      UnwrittenAnswer(Clamped(events), k, MAX_INT);
    }
  }

  // ----- end to end

  // What the parser can read of a log: the events of processes with narrow numbers, values clamped.
  function Readable(events: seq<LogEvent>): seq<LogEvent>
  {
    Clamped(Narrow(events))
  }

  lemma IdsAreNarrow(events: seq<LogEvent>, size: nat)
    requires size <= WIDE_ID && forall e :: e in events ==> e.id < size
    ensures NarrowIds(events)
  {}

  // The checker's verdict on the parsed log is Herlihy and Wing's on what is readable of the observed
  // history, in which what was not answered is pending. With narrow process numbers it never rejects
  // what was observed wrongly, and never accepts it wrongly while the counter of written values is not
  // above the largest integer.
  lemma RecordedVerdict(worlds: seq<World>, steps: seq<Step>, size: nat, i: nat, procs: seq<nat>, h: seq<Event<Value>>)
    requires IsRun(worlds, steps, size) && i < |worlds| && ParsedFrom(PrintedAll(worlds[i].events), procs, h)
    ensures Complete(h)
    ensures Linearizable(Etcd, h) <==> HerlihyWing(Observed(Readable(worlds[i].events)).history)
    ensures size <= WIDE_ID && HerlihyWing(Observed(worlds[i].events).history) ==> Linearizable(Etcd, h)
    ensures size <= WIDE_ID && worlds[i].value <= MAX_INT ==>
              (Linearizable(Etcd, h) <==> HerlihyWing(Observed(worlds[i].events).history))
  {
    hide Disciplined, Complete, CompletedWith, Linearizable, HerlihyWing, Stripped, IsRun, SmallValues, NarrowIds, ProcOk,
      NewValues, Clamped;
    var events := worlds[i].events;
    RunIsDisciplined(worlds, steps, size, i);
    NarrowDisciplined(events);
    WideIsLost(events);
    ClampedDisciplined(Narrow(events));
    ClampedNarrow(Narrow(events));
    ClampedIsRead(Narrow(events));
    RecordedIsComplete(Readable(events), procs, h);
    CompletionIsExact(h, UnknownIds(h));
    if size <= WIDE_ID {
      IdsAreNarrow(events, size);
      AllNarrow(events);
      if HerlihyWing(Observed(events).history) {
        ClampingForgives(events);
      }
      if worlds[i].value <= MAX_INT {
        ClampingIsExact(events, worlds[i].value);
      }
    }
  }

  // Parsing and checking a recorded log.
  method CheckLog(lines: seq<Line>, ghost worlds: seq<World>, ghost steps: seq<Step>, ghost size: nat, ghost i: nat)
    returns (ok: bool)
    requires IsRun(worlds, steps, size) && i < |worlds| && lines == PrintedAll(worlds[i].events)
    ensures ok <==> HerlihyWing(Observed(Readable(worlds[i].events)).history)
    ensures size <= WIDE_ID && HerlihyWing(Observed(worlds[i].events).history) ==> ok
    ensures size <= WIDE_ID && worlds[i].value <= MAX_INT ==> (ok <==> HerlihyWing(Observed(worlds[i].events).history))
  {
    hide Complete, Linearizable, HerlihyWing, IsRun;
    var events, procs := ParseJepsenLog(lines);
    RecordedVerdict(worlds, steps, size, i, procs, events);
    ShallowEqualIsLawful(Etcd);
    ok := CheckHistory(Etcd, events);
  }
}
