/** The command hold beside the map store: what the store gives a transaction that has lost its map. */
module CommandMaps {
  import opened MapEntries
  import C = CommandHold
  import M = MapStore

  /** Plane and engine, and the map store they read, clock by clock from power-on. */
  datatype Trace = Trace(run: seq<C.World>, ks: seq<C.Clock>, stores: seq<M.State>, inputs: seq<M.Inputs>)

  /** The descriptor generation counts up by one on the clock its change is shown. */
  predicate Counts(x: Trace, n: nat)
    requires n < |x.ks| == |x.inputs|
  {
    if n == 0 then !x.ks[0].descriptorChanged
    else
      x.inputs[n].descriptorGeneration ==
      (x.inputs[n - 1].descriptorGeneration + if x.ks[n].descriptorChanged then 1 else 0) % 0x1_0000
  }

  /** The wires between plane and store. */
  predicate Wired(x: Trace, n: nat)
    requires n < |x.ks| == |x.inputs| && n < |x.stores|
  {
    var k, s, i := x.ks[n], x.stores[n], x.inputs[n];
    M.Shaped(s) && i.invalidate == C.Invalidates(k) && k.activeValid == M.ActiveValid(s, i.descriptorGeneration) &&
    k.activeGeneration == M.Active(s).mapGeneration && k.activeBank == s.bank.activeBank && Counts(x, n)
  }

  /** Clock n, of the plane, of the store and of the wires between them. */
  predicate Follows(x: Trace, n: nat)
    requires n < |x.ks| == |x.inputs| && n + 1 < |x.run| && n + 1 < |x.stores|
  {
    Wired(x, n) && x.run[n + 1] == C.Next(x.run[n], x.ks[n]) && x.stores[n + 1] == M.Next(x.stores[n], x.inputs[n])
  }

  predicate Joins(x: Trace) {
    |x.run| == |x.stores| == |x.ks| + 1 && |x.inputs| == |x.ks| && x.run[0] == C.POWER_ON && M.Initial(x.stores[0]) &&
    forall n :: 0 <= n < |x.ks| ==> Follows(x, n)
  }

  // ---- The store's side -----------------------------------------------------------------------

  predicate Flips(x: Trace, n: nat)
    requires n < |x.stores| && n < |x.inputs|
  {
    M.Publishes(x.stores[n].upload, x.inputs[n])
  }

  /** Publications from clock a to clock n. */
  function Publications(x: Trace, a: nat, n: nat): nat
    requires a <= n <= |x.inputs| <= |x.stores|
  {
    if a == n then 0 else Publications(x, a, n - 1) + if Flips(x, n - 1) then 1 else 0
  }

  lemma StoreClock(s: M.State, i: M.Inputs)
    requires M.Shaped(s)
    ensures var t := M.Next(s, i);
            M.Shaped(t) && t.bank.activeBank == (s.bank.activeBank != M.Publishes(s.upload, i)) &&
            (!M.Publishes(s.upload, i) ==> M.Active(t).(valid := false) == M.Active(s).(valid := false)) &&
            (!M.Publishes(s.upload, i) && M.Active(t).valid ==>
               M.Active(s).valid && !i.invalidate && !s.bank.invalidationLatched)
  {
    M.SpareOnly(s, i);
  }

  /** Valid banks are for these descriptors. */
  predicate For(s: M.State, g: U16)
    requires M.Shaped(s)
  {
    (s.bank.banks.zero.valid ==> s.bank.banks.zero.descriptorGeneration == g) &&
    (s.bank.banks.one.valid ==> s.bank.banks.one.descriptorGeneration == g)
  }

  lemma ForKept(s: M.State, i: M.Inputs, g: U16)
    requires M.Shaped(s) && For(s, g) && (!i.invalidate ==> i.descriptorGeneration == g)
    ensures M.Shaped(M.Next(s, i)) && For(M.Next(s, i), i.descriptorGeneration)
  {
    M.SpareOnly(s, i);
  }

  /** No bank is valid for other descriptors than those of the clock before. */
  lemma {:induction false} BanksAreFresh(x: Trace, n: nat)
    requires Joins(x) && 0 < n <= |x.ks|
    ensures M.Shaped(x.stores[n]) && For(x.stores[n], x.inputs[n - 1].descriptorGeneration)
    decreases n
  {
    assert Follows(x, n - 1);
    if n > 1 {
      BanksAreFresh(x, n - 1);
      ForKept(x.stores[n - 1], x.inputs[n - 1], x.inputs[n - 2].descriptorGeneration);
    } else {
      ForKept(x.stores[0], x.inputs[0], x.inputs[0].descriptorGeneration);
    }
  }

  /** A descriptor change is seen with the map already invalid. */
  lemma ChangeFindsNoMap(x: Trace, n: nat)
    requires Joins(x) && n < |x.ks| && x.ks[n].descriptorChanged
    ensures !x.ks[n].activeValid
  {
    assert Follows(x, n);
    if n > 0 {
      BanksAreFresh(x, n);
    }
  }

  /** One clock without a publication, as the plane sees the store. */
  lemma PlaneClock(x: Trace, n: nat)
    requires Joins(x) && n + 1 < |x.ks|
    ensures var k, l := x.ks[n], x.ks[n + 1];
            l.activeBank == (k.activeBank != Flips(x, n)) &&
            (!Flips(x, n) && l.activeValid ==>
               k.activeValid && !C.Invalidates(k) && l.activeGeneration == k.activeGeneration)
  {
    assert Follows(x, n + 1) && Follows(x, n);
    BanksAreFresh(x, n + 1);
    StoreClock(x.stores[n], x.inputs[n]);
  }

  /** Without a publication, a map valid at the end has been valid, and the same, all along. */
  lemma {:induction false} ValidAllAlong(x: Trace, a: nat, n: nat, j: nat)
    requires Joins(x) && a <= j <= n < |x.ks| && Publications(x, a, n) == 0 && x.ks[n].activeValid
    ensures x.ks[j].activeValid && (j < n ==> !C.Invalidates(x.ks[j]))
    ensures x.ks[j].activeGeneration == x.ks[n].activeGeneration && x.ks[j].activeBank == x.ks[n].activeBank
    decreases n
  {
    if j < n {
      PlaneClock(x, n - 1);
      ValidAllAlong(x, a, n - 1, j);
    }
  }

  lemma {:induction false} BankFlips(x: Trace, a: nat, n: nat)
    requires Joins(x) && a <= n < |x.ks| && Publications(x, a, n) <= 1
    ensures x.ks[n].activeBank == (x.ks[a].activeBank != (Publications(x, a, n) == 1))
    decreases n
  {
    if a < n {
      BankFlips(x, a, n - 1);
      PlaneClock(x, n - 1);
    }
  }

  // ---- The transaction's side -----------------------------------------------------------------

  /** The transaction under way on clock n took its command on clock a. */
  predicate Spans(x: Trace, a: nat, n: nat) {
    a < n < |x.run| && a < |x.ks| && x.run[a].engine.phase == C.BaseCapture && C.Alive(x.run[a].engine, x.ks[a]) &&
    x.run[n].engine.generation == x.run[a].engine.generation && x.run[n].engine.bank == x.run[a].engine.bank &&
    forall j :: a < j <= n ==> C.UnderWay(x.run[j].engine)
  }

  /** What dooms it: an invalidate, or its map not found, on some clock since. */
  ghost predicate Doomed(x: Trace, a: nat, n: nat)
    requires n <= |x.ks| <= |x.run|
  {
    exists j :: a < j < n && (C.Invalidates(x.ks[j]) || !C.Alive(x.run[a].engine, x.ks[j]))
  }

  lemma {:induction false} StartOf(x: Trace, n: nat) returns (a: nat)
    requires Joins(x) && n <= |x.ks| && C.UnderWay(x.run[n].engine)
    ensures Spans(x, a, n) && (x.run[n].fate.doomed ==> Doomed(x, a, n))
    decreases n
  {
    assert n > 0;
    assert Follows(x, n - 1);
    if C.UnderWay(x.run[n - 1].engine) {
      a := StartOf(x, n - 1);
    } else {
      a := n - 1;
    }
  }

  /** A map lost in a transaction is the same map again only after two publications. */
  lemma LostMapStaysLost(x: Trace, n: nat) returns (a: nat)
    requires Joins(x) && n < |x.ks| && C.UnderWay(x.run[n].engine)
    ensures Spans(x, a, n)
    ensures x.run[n].fate.doomed && C.Alive(x.run[n].engine, x.ks[n]) ==> Publications(x, a, n) >= 2
  {
    a := StartOf(x, n);
    if x.run[n].fate.doomed && C.Alive(x.run[n].engine, x.ks[n]) && Publications(x, a, n) <= 1 {
      BankFlips(x, a, n);
      var j :| a < j < n && (C.Invalidates(x.ks[j]) || !C.Alive(x.run[a].engine, x.ks[j]));
      ValidAllAlong(x, a, n, j);
    }
  }

  /** No transaction sees two maps published. */
  ghost predicate SlowToPublish(x: Trace) {
    Joins(x) && forall a: nat, n: nat ::
      Spans(x, a, n) && n < |x.ks| ==> Publications(x, a, n) <= 1
  }

  /** So what CommandHold takes of its surroundings holds beside the map store, as long as no two maps are
   *  published within one transaction. */
  lemma StoreIsCoherent(x: Trace)
    requires SlowToPublish(x)
    ensures C.IsRun(x.run, x.ks)
  {
    forall n | 0 <= n < |x.ks|
      ensures C.Coherent(x.run[n], x.ks[n]) && x.run[n + 1] == C.Next(x.run[n], x.ks[n])
    {
      assert Follows(x, n);
      if x.ks[n].descriptorChanged {
        ChangeFindsNoMap(x, n);
      }
      if C.UnderWay(x.run[n].engine) {
        var a := LostMapStaysLost(x, n);
      }
    }
  }
}
