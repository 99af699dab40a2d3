// The declarative side of the backtracking search of lcm/porcupine: configurations, which of them
// can still be finished, and why a candidate that was tried and failed never needs a second try.
module SearchTheory {
  import opened History

  // The operations not yet in `lin` can be appended, starting from state s.
  ghost predicate Finishable<S, V>(m: Model<S, V>, h: seq<Event<V>>, lin: set<nat>, s: S)
  {
    exists rest :: IsLinearizationOf(m, h, Outputs(h), Invoked(h) - lin, s, rest)
  }

  // No remaining operation has to come before x.
  ghost predicate Enabled<V>(h: seq<Event<V>>, lin: set<nat>, x: nat)
  {
    x in Invoked(h) - lin && forall y :: y in Invoked(h) - lin ==> !Precedes(h, y, x)
  }

  ghost predicate StepOk<S, V>(m: Model<S, V>, h: seq<Event<V>>, s: S, x: nat)
  {
    x in Inputs(h) && x in Outputs(h) && m.step(s, Inputs(h)[x], Outputs(h)[x]).0
  }

  ghost function After<S, V>(m: Model<S, V>, h: seq<Event<V>>, s: S, x: nat): S
    requires StepOk(m, h, s, x)
  {
    m.step(s, Inputs(h)[x], Outputs(h)[x]).1
  }

  // Choosing x next leads nowhere.
  ghost predicate Tried<S, V>(m: Model<S, V>, h: seq<Event<V>>, lin: set<nat>, s: S, x: nat)
  {
    StepOk(m, h, s, x) ==> !Finishable(m, h, lin + {x}, After(m, h, s, x))
  }

  lemma TailFinishes<S, V>(m: Model<S, V>, h: seq<Event<V>>, lin: set<nat>, s: S, rest: seq<nat>)
    requires IsLinearizationOf(m, h, Outputs(h), Invoked(h) - lin, s, rest)
    requires rest != []
    ensures StepOk(m, h, s, rest[0])
    ensures Finishable(m, h, lin + {rest[0]}, After(m, h, s, rest[0]))
  {
    var x, tail := rest[0], rest[1..];
    forall z
      ensures z in tail <==> z in Invoked(h) - (lin + {x})
    {
      if z in rest {
        var j :| 0 <= j < |rest| && rest[j] == z;
        assert j > 0 ==> tail[j - 1] == z;
      }
      assert z in tail ==> z in rest;
    }
    assert IsLinearizationOf(m, h, Outputs(h), Invoked(h) - (lin + {x}), After(m, h, s, x), tail);
  }

  // A configuration with operations left, all of whose enabled operations lead nowhere, is dead.
  lemma {:induction false} DeadEnd<S, V>(m: Model<S, V>, h: seq<Event<V>>, lin: set<nat>, s: S)
    requires Complete(h)
    requires Invoked(h) - lin != {}
    requires forall x :: Enabled(h, lin, x) ==> Tried(m, h, lin, s, x)
    ensures !Finishable(m, h, lin, s)
  {
    if Finishable(m, h, lin, s) {
      var ops := Invoked(h) - lin;
      var rest :| IsLinearizationOf(m, h, Outputs(h), ops, s, rest);
      var y :| y in ops;
      assert y in rest;
      var x := rest[0];
      assert x in ops;
      forall z | z in ops
        ensures !Precedes(h, z, x)
      {
        assert z in rest;
        var j :| 0 <= j < |rest| && rest[j] == z;
        NeverBeforeItself(h, x);
      }
      assert Enabled(h, lin, x);
      TailFinishes(m, h, lin, s, rest);
    }
  }

  lemma {:induction false} EqualLegal<S(!new), V(!new)>(m: Model<S, V>, inp: map<nat, V>, out: map<nat, V>,
                                                        s: S, t: S, order: seq<nat>)
    requires Lawful(m) && m.equal(s, t)
    requires Legal(m, inp, out, s, order)
    ensures Legal(m, inp, out, t, order)
  {
    if order != [] {
      var i, o := inp[order[0]], out[order[0]];
      assert SameStep(m, s, t, i, o);
      EqualLegal(m, inp, out, m.step(s, i, o).1, m.step(t, i, o).1, order[1..]);
    }
  }

  // States that the model calls equal can be finished alike, so a cache keyed by `equal` is safe.
  lemma EqualFinishes<S(!new), V(!new)>(m: Model<S, V>, h: seq<Event<V>>, lin: set<nat>, s: S, t: S)
    requires Lawful(m) && m.equal(s, t)
    ensures Finishable(m, h, lin, s) <==> Finishable(m, h, lin, t)
  {
    if Finishable(m, h, lin, s) {
      var rest :| IsLinearizationOf(m, h, Outputs(h), Invoked(h) - lin, s, rest);
      EqualLegal(m, Inputs(h), Outputs(h), s, t, rest);
      assert IsLinearizationOf(m, h, Outputs(h), Invoked(h) - lin, t, rest);
    }
    if Finishable(m, h, lin, t) {
      var rest :| IsLinearizationOf(m, h, Outputs(h), Invoked(h) - lin, t, rest);
      EqualLegal(m, Inputs(h), Outputs(h), t, s, rest);
      assert IsLinearizationOf(m, h, Outputs(h), Invoked(h) - lin, s, rest);
    }
  }

  // ----- the finitely many configurations the search can meet

  ghost function Configs<S, V>(m: Model<S, V>, h: seq<Event<V>>, k: nat): set<(set<nat>, S)>
  {
    if k == 0 then {({}, m.init)}
    else
      set c, x | c in Configs(m, h, k - 1) && x in Invoked(h) && StepOk(m, h, c.1, x)
               :: (c.0 + {x}, After(m, h, c.1, x))
  }

  ghost function ConfigsUpTo<S, V>(m: Model<S, V>, h: seq<Event<V>>, k: nat): set<(set<nat>, S)>
  {
    if k == 0 then Configs(m, h, 0) else ConfigsUpTo(m, h, k - 1) + Configs(m, h, k)
  }

  ghost function Universe<S, V>(m: Model<S, V>, h: seq<Event<V>>): set<(set<nat>, S)>
  {
    ConfigsUpTo(m, h, |Invoked(h)|)
  }

  lemma {:induction false} ConfigsInUniverse<S, V>(m: Model<S, V>, h: seq<Event<V>>, k: nat, n: nat)
    requires k <= n
    ensures Configs(m, h, k) <= ConfigsUpTo(m, h, n)
    decreases n
  {
    hide Configs;
    if k < n {
      ConfigsInUniverse(m, h, k, n - 1);
    }
  }
}
