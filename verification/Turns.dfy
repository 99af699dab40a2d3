// Histories in which operations take turns: the checker's verdict on one is a replay of its answers.
module Turns {
  import opened History
  import opened Register
  import opened JepsenLog

  // ----- the verdict is a replay

  function Sequential(ins: seq<Value>, outs: seq<Value>): seq<Event<Value>>
    requires |ins| == |outs|
  {
    if ins == [] then []
    else
      var n := |ins| - 1;
      Sequential(ins[..n], outs[..n]) + [Call(ins[n], n)] + [Return(outs[n], n)]
  }

  // The operations are accepted one after the other.
  predicate Accepted(ins: seq<Value>, outs: seq<Value>, s: int)
    requires |ins| == |outs|
  {
    ins == [] || (Register.Step(s, ins[0], outs[0]).0 && Accepted(ins[1..], outs[1..], Register.Step(s, ins[0], outs[0]).1))
  }

  function Numbers(k: nat, n: nat): seq<nat>
    requires k <= n
  {
    seq(n - k, i requires 0 <= i < n - k => k + i)
  }

  // Where the events of a sequential history are.
  ghost predicate InTurn(h: seq<Event<Value>>, ins: seq<Value>, outs: seq<Value>)
  {
    && |h| == 2 * |ins| && |ins| == |outs|
    && (forall x: nat :: x < |ins| ==> IsCallOf(h, 2 * x, x) && h[2 * x].value == ins[x])
    && (forall x: nat :: x < |ins| ==> IsReturnOf(h, 2 * x + 1, x) && h[2 * x + 1].value == outs[x])
    && (forall i, x: nat :: IsCallOf(h, i, x) ==> i == 2 * x && x < |ins|)
    && forall i, x: nat :: IsReturnOf(h, i, x) ==> i == 2 * x + 1 && x < |ins|
  }

  lemma InTurnSnoc(g: seq<Event<Value>>, h: seq<Event<Value>>, ins: seq<Value>, outs: seq<Value>)
    requires |ins| == |outs| > 0
    requires var n := |ins| - 1; InTurn(g, ins[..n], outs[..n]) && h == g + [Call(ins[n], n)] + [Return(outs[n], n)]
    ensures InTurn(h, ins, outs)
  {
    var n := |ins| - 1;
    forall i, x: nat
      ensures IsCallOf(h, i, x) <==> if i == 2 * n then x == n else IsCallOf(g, i, x)
      ensures IsReturnOf(h, i, x) <==> if i == 2 * n + 1 then x == n else IsReturnOf(g, i, x)
    {
    }
  }

  lemma {:induction false} SequentialInTurn(ins: seq<Value>, outs: seq<Value>)
    requires |ins| == |outs|
    ensures InTurn(Sequential(ins, outs), ins, outs)
  {
    if ins != [] {
      var n := |ins| - 1;
      SequentialInTurn(ins[..n], outs[..n]);
      InTurnSnoc(Sequential(ins[..n], outs[..n]), Sequential(ins, outs), ins, outs);
    }
  }

  lemma InTurnMaps(h: seq<Event<Value>>, ins: seq<Value>, outs: seq<Value>)
    requires InTurn(h, ins, outs)
    ensures Invoked(h) == Returned(h) == Inputs(h).Keys == Outputs(h).Keys
    ensures forall x: nat :: x in Invoked(h) <==> x < |ins|
    ensures forall x: nat :: x < |ins| ==> Inputs(h)[x] == ins[x] && Outputs(h)[x] == outs[x]
  {
    forall x: nat | x < |ins|
      ensures x in Invoked(h) && x in Returned(h) && Inputs(h)[x] == ins[x] && Outputs(h)[x] == outs[x]
    {
      assert IsCallOf(h, 2 * x, x) && IsReturnOf(h, 2 * x + 1, x);
      assert CallPos(h, x) == 2 * x && ReturnPos(h, x) == 2 * x + 1;
    }
    forall x | x in Invoked(h) || x in Returned(h)
      ensures x < |ins|
    {
      if x in Invoked(h) {
        assert IsCallOf(h, CallPos(h, x), x);
      } else {
        assert IsReturnOf(h, ReturnPos(h, x), x);
      }
    }
    assert Invoked(h) == Returned(h);
    assert Inputs(h).Keys == Invoked(h) && Outputs(h).Keys == Returned(h);
  }

  lemma InTurnPrecedes(h: seq<Event<Value>>, ins: seq<Value>, outs: seq<Value>, x: nat, y: nat)
    requires InTurn(h, ins, outs) && Precedes(h, x, y)
    ensures x < y
  {
    var i: nat, j: nat :| 0 <= i < j && IsReturnOf(h, i, x) && IsCallOf(h, j, y);
  }

  lemma {:induction false} AcceptedRuns(ins: seq<Value>, outs: seq<Value>, inp: Run, out: Run, s: int, k: nat)
    requires |ins| == |outs| && k <= |ins|
    requires forall x: nat :: x < |ins| ==> x in inp && x in out && inp[x] == ins[x] && out[x] == outs[x]
    ensures Accepted(ins[k..], outs[k..], s) <==> Runs(inp, out, s, Numbers(k, |ins|))
    decreases |ins| - k
  {
    if k < |ins| {
      assert Numbers(k, |ins|)[1..] == Numbers(k + 1, |ins|);
      assert ins[k..][1..] == ins[k + 1..] && outs[k..][1..] == outs[k + 1..];
      AcceptedRuns(ins, outs, inp, out, Register.Step(s, ins[k], outs[k]).1, k + 1);
    }
  }

  lemma InTurnLinearizes(h: seq<Event<Value>>, ins: seq<Value>, outs: seq<Value>)
    requires InTurn(h, ins, outs) && Accepted(ins, outs, NIL)
    ensures IsLinearizationOf(Etcd, h, Outputs(h), Invoked(h), NIL, Numbers(0, |ins|))
  {
    var order := Numbers(0, |ins|);
    hide Inputs, Outputs, Precedes, Invoked, Returned, InTurn, Accepted;
    InTurnMaps(h, ins, outs);
    assert ins[0..] == ins && outs[0..] == outs;
    AcceptedRuns(ins, outs, Inputs(h), Outputs(h), NIL, 0);
    hide Legal;
    forall x: nat | x < |ins|
      ensures x in order
    {
      assert order[x] == x;
    }
    forall i, j | 0 <= i < j < |order|
      ensures !Precedes(h, order[j], order[i])
    {
      if Precedes(h, order[j], order[i]) {
        InTurnPrecedes(h, ins, outs, order[j], order[i]);
      }
    }
  }

  // A history without overlap whose operations are accepted in order is linearizable.
  lemma SequentialOk(ins: seq<Value>, outs: seq<Value>)
    requires |ins| == |outs| && Accepted(ins, outs, NIL)
    ensures HerlihyWing(Sequential(ins, outs))
  {
    var h := Sequential(ins, outs);
    SequentialInTurn(ins, outs);
    hide IsLinearizationOf, Sequential, Accepted, InTurn, Inputs, Outputs, Invoked, Returned;
    InTurnLinearizes(h, ins, outs);
    InTurnMaps(h, ins, outs);
    assert TookEffect(h, Invoked(h), Outputs(h), Numbers(0, |ins|));
  }

  lemma InTurnOrdered(h: seq<Event<Value>>, ins: seq<Value>, outs: seq<Value>, x: nat, y: nat)
    requires InTurn(h, ins, outs) && x < y < |ins|
    ensures Precedes(h, x, y)
  {
    assert IsReturnOf(h, 2 * x + 1, x) && IsCallOf(h, 2 * y, y);
  }

  // Rising numbers that are all those below n are in their places.
  lemma {:induction false} InPlace(order: seq<nat>, n: nat, k: nat)
    requires forall i, j :: 0 <= i < j < |order| ==> order[i] < order[j]
    requires (forall x: nat :: x in order <==> x < n) && k <= n
    ensures k <= |order| && forall i :: 0 <= i < k ==> order[i] == i
  {
    if k > 0 {
      InPlace(order, n, k - 1);
      assert k - 1 in order;
      var p :| 0 <= p < |order| && order[p] == k - 1;
      assert k > 1 ==> order[k - 2] == k - 2;
    }
  }

  lemma OnlyOrder(h: seq<Event<Value>>, ins: seq<Value>, outs: seq<Value>, order: seq<nat>)
    requires InTurn(h, ins, outs) && NoDup(order) && RespectsRealTime(h, order)
    requires forall x: nat :: x in order <==> x < |ins|
    ensures order == Numbers(0, |ins|)
  {
    var n := |ins|;
    forall i, j | 0 <= i < j < |order|
      ensures order[i] < order[j]
    {
      assert order[i] in order && order[j] in order;
      if order[j] < order[i] {
        InTurnOrdered(h, ins, outs, order[j], order[i]);
      }
    }
    hide InTurn, RespectsRealTime;
    InPlace(order, n, n);
    var x := (order + [0])[n];
    assert |order| > n ==> x in order;
    assert n > 0 ==> order[n - 1] == n - 1;
  }

  lemma InTurnComplete(h: seq<Event<Value>>, ins: seq<Value>, outs: seq<Value>)
    requires InTurn(h, ins, outs)
    ensures Complete(h)
  {
    forall i: nat, j: nat | i < j < |h| && h[i].id == h[j].id
      ensures h[i].Call? && h[j].Return?
    {
      var x := h[i].id;
      assert IsCallOf(h, i, x) || IsReturnOf(h, i, x);
      assert IsCallOf(h, j, x) || IsReturnOf(h, j, x);
    }
    forall i: nat | i < |h|
      ensures HasPartner(h, i)
    {
      var x := h[i].id;
      assert IsCallOf(h, i, x) || IsReturnOf(h, i, x);
      assert IsCallOf(h, 2 * x, x) && IsReturnOf(h, 2 * x + 1, x);
    }
  }

  // A history without overlap is linearizable exactly if its operations are accepted in order.
  lemma SequentialExact(ins: seq<Value>, outs: seq<Value>)
    requires |ins| == |outs|
    ensures var h := Sequential(ins, outs);
            Complete(h) && (Linearizable(Etcd, h) <==> Accepted(ins, outs, NIL))
  {
    var h := Sequential(ins, outs);
    SequentialInTurn(ins, outs);
    InTurnComplete(h, ins, outs);
    hide Sequential, Accepted, InTurn, Inputs, Outputs, Invoked, Returned, Complete, RespectsRealTime, Legal, NoDup;
    InTurnMaps(h, ins, outs);
    if Accepted(ins, outs, NIL) {
      InTurnLinearizes(h, ins, outs);
    }
    if order :| IsLinearizationOf(Etcd, h, Outputs(h), Invoked(h), NIL, order) {
      OnlyOrder(h, ins, outs, order);
      assert ins[0..] == ins && outs[0..] == outs;
      AcceptedRuns(ins, outs, Inputs(h), Outputs(h), NIL, 0);
    }
  }

  // ----- the log of one process

  // An operation with its answer.
  datatype Turn = Reads(there: bool, v: nat) | Writes(v: nat) | Swaps(from: nat, to: nat, done: bool)

  datatype Content = Empty | Holds(v: nat)

  // The answers are those of a register that holds `c` and is read, written and compared-and-set in turn.
  predicate Obeys(ts: seq<Turn>, c: Content)
  {
    ts == [] ||
    match ts[0]
    case Reads(there, v) => c == (if there then Holds(v) else Empty) && Obeys(ts[1..], c)
    case Writes(v) => Obeys(ts[1..], Holds(v))
    case Swaps(from, to, done) => (done <==> c == Holds(from)) && Obeys(ts[1..], if done then Holds(to) else c)
  }

  function AskLine(proc: nat, t: Turn): Line
  {
    match t
    case Reads(_, _) => InvokeRead(proc)
    case Writes(v) => InvokeWrite(proc, v)
    case Swaps(from, to, _) => InvokeCas(proc, from, to)
  }

  function AnswerLine(proc: nat, t: Turn): Line
  {
    match t
    case Reads(there, v) => OkRead(proc, there, v)
    case Writes(v) => OkWrite(proc, v)
    case Swaps(_, _, done) => EndCas(proc, done)
  }

  function LinesOf(proc: nat, ts: seq<Turn>): seq<Line>
  {
    if ts == [] then []
    else
      var t, n := ts[|ts| - 1], |ts| - 1;
      LinesOf(proc, ts[..n]) + [AskLine(proc, t)] + [AnswerLine(proc, t)]
  }

  ghost predicate SmallTurn(t: Turn)
  {
    match t
    case Reads(there, v) => v <= MAX_INT
    case Writes(v) => v <= MAX_INT
    case Swaps(from, to, _) => from <= MAX_INT && to <= MAX_INT
  }

  function Asked(t: Turn): Value
  {
    match t
    case Reads(_, _) => Input(READ, 0, 0)
    case Writes(v) => Input(WRITE, v, 0)
    case Swaps(from, to, _) => Input(CAS, from, to)
  }

  function Given(t: Turn): Value
  {
    match t
    case Reads(there, v) => Output(false, there, if there then v else 0, false)
    case Writes(_) => Output(false, false, 0, false)
    case Swaps(_, _, done) => Output(done, false, 0, false)
  }

  function AskedAll(ts: seq<Turn>): seq<Value>
  {
    seq(|ts|, k requires 0 <= k < |ts| => Asked(ts[k]))
  }

  function GivenAll(ts: seq<Turn>): seq<Value>
  {
    seq(|ts|, k requires 0 <= k < |ts| => Given(ts[k]))
  }

  function Encoded(c: Content): int
  {
    if c.Empty? then NIL else c.v
  }

  lemma {:induction false} ReplayIsRegister(ts: seq<Turn>, c: Content)
    ensures Accepted(AskedAll(ts), GivenAll(ts), Encoded(c)) <==> Obeys(ts, c)
  {
    if ts != [] {
      var c' := match ts[0] case Reads(_, _) => c case Writes(v) => Holds(v) case Swaps(from, to, _) => if c == Holds(from) then Holds(to) else c;
      ReplayIsRegister(ts[1..], c');
      assert AskedAll(ts)[1..] == AskedAll(ts[1..]) && GivenAll(ts)[1..] == GivenAll(ts[1..]);
      assert Register.Step(Encoded(c), Asked(ts[0]), Given(ts[0])).1 == Encoded(c');
    }
  }

  lemma ParsedTwo(lines: seq<Line>, a: Line, b: Line)
    ensures ParseLines(lines + [a] + [b]) == ParseLine(ParseLine(ParseLines(lines), a), b)
  {
    var one, two := lines + [a], lines + [a] + [b];
    assert two[..|two| - 1] == one && one[..|one| - 1] == lines;
  }

  lemma ParsedTurn(p: Parser, proc: nat, t: Turn)
    requires p.procIdMap == map[] && proc <= MAX_INT && SmallTurn(t)
    ensures ParseLine(ParseLine(p, AskLine(proc, t)), AnswerLine(proc, t))
            == Parser(p.events + [Call(Asked(t), p.next)] + [Return(Given(t), p.next)], p.next + 1, map[])
  {
    assert map[proc := p.next] - {proc} == map[];
  }

  lemma {:induction false} ParsedTurns(proc: nat, ts: seq<Turn>)
    requires proc <= MAX_INT && forall t :: t in ts ==> SmallTurn(t)
    ensures ParseLines(LinesOf(proc, ts)) == Parser(Sequential(AskedAll(ts), GivenAll(ts)), |ts|, map[])
  {
    if ts != [] {
      hide ParseLines, ParseLine;
      var n := |ts| - 1;
      ParsedTurns(proc, ts[..n]);
      assert ts[n] in ts;
      assert AskedAll(ts)[..n] == AskedAll(ts[..n]) && GivenAll(ts)[..n] == GivenAll(ts[..n]);
      ParsedTwo(LinesOf(proc, ts[..n]), AskLine(proc, ts[n]), AnswerLine(proc, ts[n]));
      ParsedTurn(ParseLines(LinesOf(proc, ts[..n])), proc, ts[n]);
    }
  }

  // The log of one process, its reads, writes and compare-and-sets answered in turn, is accepted exactly
  // if the answers are those of a register that is empty at first.
  lemma OneProcessVerdict(proc: nat, ts: seq<Turn>, procs: seq<nat>, h: seq<Event<Value>>)
    requires proc <= MAX_INT && (forall t :: t in ts ==> SmallTurn(t)) && ParsedFrom(LinesOf(proc, ts), procs, h)
    ensures Complete(h) && (Linearizable(Etcd, h) <==> Obeys(ts, Empty))
  {
    ParsedTurns(proc, ts);
    SequentialExact(AskedAll(ts), GivenAll(ts));
    ReplayIsRegister(ts, Empty);
    hide Linearizable, Complete, ParseLines;
    var q := (procs + [0])[0];
    assert procs != [] ==> q in procs;
    assert h == Sequential(AskedAll(ts), GivenAll(ts));
  }
}
