// From a Jepsen-style log to a history (parseJepsenLog in lcm/porcupine/etcd.go). A line is taken
// as the fields its pattern captures.
module JepsenLog {
  import opened History
  import opened Register

  // The decimal numbers in a line, by the pattern it matches.
  datatype Line =
    | InvokeRead(proc: nat)
    | InvokeWrite(proc: nat, v: nat)
    | InvokeCas(proc: nat, from: nat, to: nat)
    | OkRead(proc: nat, there: bool, v: nat)
    | OkWrite(proc: nat, v: nat)
    | EndCas(proc: nat, ok: bool)
    | TimedOutRead(proc: nat)
    | Unmatched

  const MAX_INT: nat := 0x7fff_ffff_ffff_ffff

  // strconv.Atoi with its error dropped.
  function Atoi(digits: nat): nat
  {
    if digits <= MAX_INT then digits else MAX_INT
  }

  const UNKNOWN: Value := Output(false, false, 0, true)

  // The parser's variables.
  datatype Parser = Parser(events: seq<Event<Value>>, next: nat, procIdMap: map<nat, nat>)

  function Begun(p: Parser, proc: nat, inp: Value): Parser
  {
    Parser(p.events + [Call(inp, p.next)], p.next + 1, p.procIdMap[proc := p.next])
  }

  // A missing map entry reads as 0.
  function Lookup(procIdMap: map<nat, nat>, proc: nat): nat
  {
    if proc in procIdMap then procIdMap[proc] else 0
  }

  function Ended(p: Parser, proc: nat, out: Value): Parser
  {
    Parser(p.events + [Return(out, Lookup(p.procIdMap, proc))], p.next, p.procIdMap - {proc})
  }

  function ParseLine(p: Parser, line: Line): Parser
  {
    match line
    case InvokeRead(proc) => Begun(p, Atoi(proc), Input(READ, 0, 0))
    case InvokeWrite(proc, v) => Begun(p, Atoi(proc), Input(WRITE, Atoi(v), 0))
    case InvokeCas(proc, from, to) => Begun(p, Atoi(proc), Input(CAS, Atoi(from), Atoi(to)))
    case OkRead(proc, there, v) => Ended(p, Atoi(proc), Output(false, there, if there then Atoi(v) else 0, false))
    case OkWrite(proc, _) => Ended(p, Atoi(proc), Output(false, false, 0, false))
    case EndCas(proc, ok) => Ended(p, Atoi(proc), Output(ok, false, 0, false))
    case TimedOutRead(proc) => Ended(p, Atoi(proc), UNKNOWN)
    case Unmatched => p
  }

  function ParseLines(lines: seq<Line>): Parser
  {
    if lines == [] then Parser([], 0, map[]) else ParseLine(ParseLines(lines[..|lines| - 1]), lines[|lines| - 1])
  }

  // An answer of a process with nothing pending is taken as one to the first operation.
  lemma StrayAnswer(p: Parser, proc: nat, v: nat)
    requires proc <= MAX_INT && proc !in p.procIdMap
    ensures var p' := ParseLine(p, OkWrite(proc, v));
            p'.events == p.events + [Return(Output(false, false, 0, false), 0)] && p'.procIdMap == p.procIdMap && p'.next == p.next
  {}

  // The returns added for the processes in `procs`.
  function Closing(procIdMap: map<nat, nat>, procs: seq<nat>): seq<Event<Value>>
    requires forall q :: q in procs ==> q in procIdMap
  {
    seq(|procs|, i requires 0 <= i < |procs| => assert procs[i] in procs; Return(UNKNOWN, procIdMap[procs[i]]))
  }

  // Every process still in the map, once each.
  ghost predicate AllPending(procIdMap: map<nat, nat>, procs: seq<nat>)
  {
    NoDup(procs) && forall q :: q in procs <==> q in procIdMap
  }

  // h is the events of the lines followed by a return for every process still in the map.
  ghost predicate ParsedFrom(lines: seq<Line>, procs: seq<nat>, h: seq<Event<Value>>)
  {
    var p := ParseLines(lines);
    AllPending(p.procIdMap, procs) && h == p.events + Closing(p.procIdMap, procs)
  }

  // The loop over the map.
  method ClosePending(procIdMap: map<nat, nat>) returns (tail: seq<Event<Value>>, ghost procs: seq<nat>)
    ensures AllPending(procIdMap, procs) && tail == Closing(procIdMap, procs)
  {
    tail, procs := [], [];
    var left := procIdMap.Keys;
    while left != {}
      invariant left <= procIdMap.Keys && NoDup(procs)
      invariant forall q :: q in procs <==> q in procIdMap && q !in left
      invariant tail == Closing(procIdMap, procs)
      decreases left
    {
      var p :| p in left;
      tail := tail + [Return(UNKNOWN, procIdMap[p])];
      ghost var more := procs + [p];
      assert Closing(procIdMap, more) == Closing(procIdMap, procs) + [Return(UNKNOWN, procIdMap[p])];
      procs := more;
      left := left - {p};
    }
  }

  // The loop over the lines, then the one over the map, in whatever order it comes.
  method ParseJepsenLog(lines: seq<Line>) returns (events: seq<Event<Value>>, ghost procs: seq<nat>)
    ensures ParsedFrom(lines, procs, events)
    ensures exists order :: ParsedFrom(lines, order, events)
  {
    events := [];
    var id: nat := 0;
    var procIdMap: map<nat, nat> := map[];
    for k := 0 to |lines|
      invariant Parser(events, id, procIdMap) == ParseLines(lines[..k])
    {
      assert lines[..k + 1][..k] == lines[..k];
      match lines[k] {
        case InvokeRead(p) =>
          events := events + [Call(Input(READ, 0, 0), id)];
          procIdMap := procIdMap[Atoi(p) := id];
          id := id + 1;
        case InvokeWrite(p, v) =>
          events := events + [Call(Input(WRITE, Atoi(v), 0), id)];
          procIdMap := procIdMap[Atoi(p) := id];
          id := id + 1;
        case InvokeCas(p, from, to) =>
          events := events + [Call(Input(CAS, Atoi(from), Atoi(to)), id)];
          procIdMap := procIdMap[Atoi(p) := id];
          id := id + 1;
        case OkRead(p, there, v) =>
          var value := 0;
          if there {
            value := Atoi(v);
          }
          var matchId := Lookup(procIdMap, Atoi(p));
          procIdMap := procIdMap - {Atoi(p)};
          events := events + [Return(Output(false, there, value, false), matchId)];
        case OkWrite(p, v) =>
          var matchId := Lookup(procIdMap, Atoi(p));
          procIdMap := procIdMap - {Atoi(p)};
          events := events + [Return(Output(false, false, 0, false), matchId)];
        case EndCas(p, ok) =>
          var matchId := Lookup(procIdMap, Atoi(p));
          procIdMap := procIdMap - {Atoi(p)};
          events := events + [Return(Output(ok, false, 0, false), matchId)];
        case TimedOutRead(p) =>
          var matchId := Lookup(procIdMap, Atoi(p));
          procIdMap := procIdMap - {Atoi(p)};
          events := events + [Return(UNKNOWN, matchId)];
        case Unmatched =>
      }
    }
    assert lines[..|lines|] == lines;
    assert ParseLines(lines) == Parser(events, id, procIdMap);
    var tail;
    tail, procs := ClosePending(procIdMap);
    events := events + tail;
    assert ParsedFrom(lines, procs, events);
  }

  // ----- what a parsed log is

  // Every operation called so far has a number below `next`, and those not returned are in the map.
  ghost predicate ParserOk(p: Parser)
  {
    && CallsFirst(p.events)
    && (forall x: nat :: x in Invoked(p.events) <==> x < p.next)
    && (forall q, r :: q in p.procIdMap && r in p.procIdMap && p.procIdMap[q] == p.procIdMap[r] ==> q == r)
    && Returned(p.events) <= Invoked(p.events)
    && forall x :: x in p.procIdMap.Values <==> x in Invoked(p.events) && x !in Returned(p.events)
  }

  lemma IdsBelow(p: Parser)
    requires ParserOk(p)
    ensures forall i :: 0 <= i < |p.events| ==> p.events[i].id < p.next
  {
    forall i | 0 <= i < |p.events|
      ensures p.events[i].id in Invoked(p.events)
    {
      assert p.events[i].Return? ==> p.events[i].id in Returned(p.events);
    }
  }

  lemma BegunOk(p: Parser, proc: nat, inp: Value)
    requires ParserOk(p) && proc !in p.procIdMap
    ensures ParserOk(Begun(p, proc, inp))
  {
    var p' := Begun(p, proc, inp);
    InvokedSnoc(p.events, Call(inp, p.next));
    IdsBelow(p);
    forall x
      ensures x in p'.procIdMap.Values <==> x in p.procIdMap.Values || x == p.next
    {
      if x in p.procIdMap.Values {
        var q :| q in p.procIdMap && p.procIdMap[q] == x;
        assert p'.procIdMap[q] == x;
      }
      assert p'.procIdMap[proc] == p.next;
    }
    forall q | q in p.procIdMap
      ensures p.procIdMap[q] != p.next
    {
      assert p.procIdMap[q] in p.procIdMap.Values;
    }
  }

  lemma EndedOk(p: Parser, proc: nat, out: Value)
    requires ParserOk(p) && proc in p.procIdMap
    ensures ParserOk(Ended(p, proc, out))
  {
    var p', id := Ended(p, proc, out), p.procIdMap[proc];
    InvokedSnoc(p.events, Return(out, id));
    assert id in p.procIdMap.Values;
    forall i | 0 <= i < |p.events| && p.events[i].id == id
      ensures p.events[i].Call?
    {
      assert p.events[i].Return? ==> id in Returned(p.events);
    }
    forall x
      ensures x in p'.procIdMap.Values <==> x in p.procIdMap.Values && x != id
    {
      if x in p.procIdMap.Values && x != id {
        var q :| q in p.procIdMap && p.procIdMap[q] == x;
        assert p'.procIdMap[q] == x;
      }
      if x in p'.procIdMap.Values {
        var q :| q in p'.procIdMap && p'.procIdMap[q] == x;
        assert p.procIdMap[q] == x;
      }
    }
  }

  lemma NothingPending(p: Parser)
    requires ParserOk(p) && p.procIdMap.Keys == {}
    ensures Complete(p.events)
  {
    assert p.procIdMap.Values == {};
    forall i: nat | i < |p.events|
      ensures HasPartner(p.events, i)
    {
      var x := p.events[i].id;
      if p.events[i].Call? {
        assert IsCallOf(p.events, i, x);
        assert x in Invoked(p.events);
        assert IsReturnOf(p.events, ReturnPos(p.events, x), x);
      } else {
        assert x in Returned(p.events);
        assert IsCallOf(p.events, CallPos(p.events, x), x);
      }
    }
  }

  // Closing what is pending, in any order, leaves a complete history.
  lemma {:induction false} ClosedOk(p: Parser, procs: seq<nat>)
    requires ParserOk(p) && AllPending(p.procIdMap, procs)
    ensures Complete(p.events + Closing(p.procIdMap, procs))
    decreases |procs|
  {
    hide ParserOk, Complete, Invoked, Returned;
    var tail := Closing(p.procIdMap, procs);
    if procs == [] {
      assert p.procIdMap.Keys == {};
      assert p.events + tail == p.events;
      NothingPending(p);
    } else {
      var q := procs[0];
      assert q in procs;
      var p' := Ended(p, q, UNKNOWN);
      EndedOk(p, q, UNKNOWN);
      assert tail == [Return(UNKNOWN, p.procIdMap[q])] + Closing(p'.procIdMap, procs[1..]);
      assert p.events + tail == p'.events + Closing(p'.procIdMap, procs[1..]);
      ClosedOk(p', procs[1..]);
    }
  }
}
