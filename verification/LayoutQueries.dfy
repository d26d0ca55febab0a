/** Layout queries over whole runs: what a key asked on the port is answered, and when. */
module LayoutQueries {
  import opened MapEntries
  import opened MapValidation
  import opened MapStore

  /** A run from reset, one state more than inputs. */
  ghost predicate IsRun(run: seq<State>, inputs: seq<Inputs>) {
    |run| == |inputs| + 1 && Initial(run[0]) && forall n :: 0 <= n < |inputs| ==> Follows(run, inputs, n)
  }

  ghost predicate Follows(run: seq<State>, inputs: seq<Inputs>, n: nat)
    requires n < |inputs| && n + 1 < |run|
  {
    Shaped(run[n]) && run[n + 1] == Next(run[n], inputs[n])
  }

  lemma {:induction false} RunKeepsInv(run: seq<State>, inputs: seq<Inputs>, n: nat)
    requires IsRun(run, inputs) && n <= |inputs|
    ensures Inv(run[n])
    decreases n
  {
    if n == 0 {
      InitialInv(run[0]);
    } else {
      RunKeepsInv(run, inputs, n - 1);
      assert Follows(run, inputs, n - 1);
      NextKeepsInv(run[n - 1], inputs[n - 1]);
    }
  }

  /** The port is ready on clock m, and the key is on it. */
  predicate Asks(run: seq<State>, inputs: seq<Inputs>, m: nat, key: LayoutKey)
    requires m < |inputs| && m < |run|
  {
    inputs[m].query == Some(key) && run[m].look.query.None? && run[m].look.result.None?
  }

  /** No answer after clock m and up to clock n. */
  predicate Unanswered(run: seq<State>, m: nat, n: nat) {
    forall j :: m < j <= n && j < |run| ==> run[j].look.result.None?
  }

  /** One map is active and valid on the clocks from m to n. */
  ghost predicate InForce(run: seq<State>, inputs: seq<Inputs>, m: nat, n: nat)
    requires n < |inputs| && n < |run|
  {
    forall j :: m <= j <= n ==> Live(run, inputs, j) && (j < n ==> !Publishes(run[j].upload, inputs[j]))
  }

  ghost predicate Live(run: seq<State>, inputs: seq<Inputs>, j: nat)
    requires j < |inputs| && j < |run|
  {
    Shaped(run[j]) && ActiveValid(run[j], inputs[j].descriptorGeneration)
  }

  // ---- The map stays while it is in force -----------------------------------------------------

  predicate SameMap(s: State, t: State)
    requires Shaped(s) && Shaped(t)
  {
    t.bank.activeBank == s.bank.activeBank && Active(t).(valid := false) == Active(s).(valid := false) &&
    t.memory.At(t.bank.activeBank) == s.memory.At(s.bank.activeBank)
  }

  lemma SameMapOnAClock(s: State, i: Inputs)
    requires Shaped(s)
    ensures Shaped(Next(s, i)) && Next(s, i).bank.activeBank == (s.bank.activeBank != Publishes(s.upload, i))
    ensures !Publishes(s.upload, i) ==> SameMap(s, Next(s, i))
  {
    SpareOnly(s, i);
  }

  lemma {:induction false} SameMapWhileInForce(run: seq<State>, inputs: seq<Inputs>, m: nat, n: nat)
    requires IsRun(run, inputs) && m <= n < |inputs| && InForce(run, inputs, m, n)
    ensures Shaped(run[m]) && Shaped(run[n]) && SameMap(run[m], run[n])
    decreases n
  {
    assert Live(run, inputs, m);
    if m < n {
      assert InForce(run, inputs, m, n - 1);
      SameMapWhileInForce(run, inputs, m, n - 1);
      assert Follows(run, inputs, n - 1);
      SameMapOnAClock(run[n - 1], inputs[n - 1]);
    }
  }

  // ---- The scan -------------------------------------------------------------------------------

  /** A query of this key asked over this map, d records passed. */
  predicate Scans(s: State, first: State, g: U16, key: LayoutKey, d: nat)
    requires Shaped(s) && Shaped(first)
  {
    s.look.query.Some? &&
    var q, a := s.look.query.value, Active(first);
    q.key == key && q.bank == first.bank.activeBank && q.descriptorGeneration == a.descriptorGeneration &&
    q.mapGeneration == a.mapGeneration && q.layoutCount == a.layoutCount && q.scanIndex == d &&
    (q.immediateMiss <==> !(ActiveValid(first, g) && a.layoutCount != 0)) && (q.immediateMiss ==> d == 0)
  }

  lemma ScanBegins(s: State, i: Inputs, key: LayoutKey)
    requires Shaped(s) && i.query == Some(key) && s.look.query.None? && s.look.result.None?
    ensures Shaped(Next(s, i)) && Scans(Next(s, i), s, i.descriptorGeneration, key, 0)
    ensures Next(s, i).look.result.None?
  {
    SpareOnly(s, i);
  }

  /** A clock that does not answer found the snapshot in force and passed a record. */
  lemma ScanGoesOn(s: State, i: Inputs, first: State, g: U16, key: LayoutKey, d: nat)
    requires Inv(s) && Shaped(first) && Scans(s, first, g, key, d) && Next(s, i).look.result.None?
    ensures Shaped(Next(s, i)) && Scans(Next(s, i), first, g, key, d + 1) && d + 1 < Active(first).layoutCount
    ensures ActiveValid(s, i.descriptorGeneration) && s.bank.activeBank == first.bank.activeBank
    ensures ActiveValid(first, g)
  {
    SpareOnly(s, i);
  }

  lemma ScanBeginsAt(run: seq<State>, inputs: seq<Inputs>, m: nat, key: LayoutKey)
    requires IsRun(run, inputs) && m < |inputs| && Asks(run, inputs, m, key)
    ensures Shaped(run[m]) && Shaped(run[m + 1])
    ensures Scans(run[m + 1], run[m], inputs[m].descriptorGeneration, key, 0) && run[m + 1].look.result.None?
    ensures ActiveValid(run[m], inputs[m].descriptorGeneration) <==> InForce(run, inputs, m, m)
  {
    assert Follows(run, inputs, m);
    ScanBegins(run[m], inputs[m], key);
    assert Live(run, inputs, m) <==> ActiveValid(run[m], inputs[m].descriptorGeneration);
  }

  /** One clock more in force, told from the state. */
  lemma InForceOn(run: seq<State>, inputs: seq<Inputs>, m: nat, n: nat)
    requires IsRun(run, inputs) && m <= n && n + 1 < |inputs| && InForce(run, inputs, m, n)
    ensures Shaped(run[m]) && Shaped(run[n + 1]) && Inv(run[n + 1])
    ensures InForce(run, inputs, m, n + 1) <==>
            ActiveValid(run[n + 1], inputs[n + 1].descriptorGeneration) &&
            run[n + 1].bank.activeBank == run[m].bank.activeBank
    ensures InForce(run, inputs, m, n + 1) ==> SameMap(run[m], run[n + 1])
  {
    RunKeepsInv(run, inputs, n + 1);
    SameMapWhileInForce(run, inputs, m, n);
    assert Follows(run, inputs, n);
    SameMapOnAClock(run[n], inputs[n]);
    assert Live(run, inputs, n + 1) <==> ActiveValid(run[n + 1], inputs[n + 1].descriptorGeneration);
  }

  /** d records of the scan of clock m's query are passed, and no answer yet. */
  ghost predicate Scanned(run: seq<State>, inputs: seq<Inputs>, m: nat, d: nat, key: LayoutKey)
    requires m + d < |inputs| && m + d + 1 < |run|
  {
    Shaped(run[m]) && Shaped(run[m + d + 1]) &&
    Scans(run[m + d + 1], run[m], inputs[m].descriptorGeneration, key, d) &&
    (d > 0 ==> d < Active(run[m]).layoutCount) &&
    if d == 0 then ActiveValid(run[m], inputs[m].descriptorGeneration) <==> InForce(run, inputs, m, m)
    else InForce(run, inputs, m, m + d)
  }

  lemma ScanGoesOnAt(
    run: seq<State>, inputs: seq<Inputs>, n: nat, first: State, g: U16, key: LayoutKey, d: nat)
    requires IsRun(run, inputs) && n < |inputs| && Shaped(run[n]) && Shaped(first)
    requires Scans(run[n], first, g, key, d) && run[n + 1].look.result.None?
    ensures Shaped(run[n + 1]) && Scans(run[n + 1], first, g, key, d + 1) && d + 1 < Active(first).layoutCount
    ensures ActiveValid(run[n], inputs[n].descriptorGeneration)
    ensures run[n].bank.activeBank == first.bank.activeBank && ActiveValid(first, g)
  {
    RunKeepsInv(run, inputs, n);
    assert Follows(run, inputs, n);
    ScanGoesOn(run[n], inputs[n], first, g, key, d);
  }

  lemma ScanStep(run: seq<State>, inputs: seq<Inputs>, m: nat, d: nat, key: LayoutKey)
    requires IsRun(run, inputs) && m + d + 1 < |inputs| && Scanned(run, inputs, m, d, key)
    requires run[m + d + 2].look.result.None?
    ensures Scanned(run, inputs, m, d + 1, key)
  {
    ScanGoesOnAt(run, inputs, m + d + 1, run[m], inputs[m].descriptorGeneration, key, d);
    InForceOn(run, inputs, m, m + d);
  }

  lemma {:induction false} ScanOn(run: seq<State>, inputs: seq<Inputs>, m: nat, d: nat, key: LayoutKey)
    requires IsRun(run, inputs) && m + d < |inputs| && Asks(run, inputs, m, key) && Unanswered(run, m, m + d + 1)
    ensures Scanned(run, inputs, m, d, key)
    decreases d
  {
    if d == 0 {
      ScanBeginsAt(run, inputs, m, key);
    } else {
      ScanOn(run, inputs, m, d - 1, key);
      ScanStep(run, inputs, m, d - 1, key);
    }
  }

  // ---- The answer -----------------------------------------------------------------------------

  /** The scan's answer over the map it was asked of. */
  lemma HeldAnswer(s: State, i: Inputs, first: State, g: U16, key: LayoutKey, d: nat)
    requires Inv(s) && Shaped(first) && Scans(s, first, g, key, d) && Next(s, i).look.result.Some?
    requires ActiveValid(first, g) && ActiveValid(s, i.descriptorGeneration) && SameMap(first, s)
    ensures var r, dir := Next(s, i).look.result.value, ActiveDirectory(first);
            (r == Miss <==> forall l :: 0 <= l < |dir| ==> dir[l].key != key) &&
            forall l :: 0 <= l < |dir| ==> (r == Found(l, dir[l].reportLength) <==> dir[l].key == key)
  {
    ActiveKeysDiffer(s);
    var dir := ActiveDirectory(s);
    assert dir == ActiveDirectory(first);
    assert forall l :: 0 <= l < |dir| ==> dir[l] == s.memory.At(s.bank.activeBank).directory[l];
  }

  /** Over another map, or none, it is a miss. */
  lemma LostAnswer(s: State, i: Inputs, first: State, g: U16, key: LayoutKey, d: nat)
    requires Shaped(s) && Shaped(first) && Scans(s, first, g, key, d)
    requires !ActiveValid(first, g) || !ActiveValid(s, i.descriptorGeneration) ||
             s.bank.activeBank != first.bank.activeBank
    ensures Next(s, i).look == QueryRegisters(None, Some(Miss))
  {
  }

  lemma AnswerAt(run: seq<State>, inputs: seq<Inputs>, n: nat, first: State, g: U16, key: LayoutKey, d: nat)
    requires IsRun(run, inputs) && n < |inputs| && Shaped(run[n]) && Shaped(first)
    requires Scans(run[n], first, g, key, d) && run[n + 1].look.result.Some?
    ensures var r, dir, s := run[n + 1].look.result.value, ActiveDirectory(first), run[n];
            if ActiveValid(first, g) && ActiveValid(s, inputs[n].descriptorGeneration) && SameMap(first, s) then
              (r == Miss <==> forall l :: 0 <= l < |dir| ==> dir[l].key != key) &&
              forall l :: 0 <= l < |dir| ==> (r == Found(l, dir[l].reportLength) <==> dir[l].key == key)
            else
              r == Miss || (ActiveValid(first, g) && ActiveValid(s, inputs[n].descriptorGeneration) &&
                            s.bank.activeBank == first.bank.activeBank)
  {
    RunKeepsInv(run, inputs, n);
    assert Follows(run, inputs, n);
    if ActiveValid(first, g) && ActiveValid(run[n], inputs[n].descriptorGeneration) && SameMap(first, run[n]) {
      HeldAnswer(run[n], inputs[n], first, g, key, d);
    } else if !ActiveValid(first, g) || !ActiveValid(run[n], inputs[n].descriptorGeneration) ||
              run[n].bank.activeBank != first.bank.activeBank {
      LostAnswer(run[n], inputs[n], first, g, key, d);
    }
  }

  /**
   * A key asked on clock m and answered on clock n. If one map was in force on all clocks from m to n, the
   * answer is its layout l, with that layout's report length, if and only if the directory has the key at
   * l, and a miss if and only if no layout has the key; otherwise it is a miss.
   */
  lemma QueryIsAnswered(run: seq<State>, inputs: seq<Inputs>, m: nat, n: nat, key: LayoutKey)
    requires IsRun(run, inputs) && m < n < |inputs| && Asks(run, inputs, m, key)
    requires Unanswered(run, m, n) && run[n + 1].look.result.Some?
    ensures Shaped(run[m])
    ensures var r, dir := run[n + 1].look.result.value, ActiveDirectory(run[m]);
            if InForce(run, inputs, m, n) then
              (r == Miss <==> forall l :: 0 <= l < |dir| ==> dir[l].key != key) &&
              forall l :: 0 <= l < |dir| ==> (r == Found(l, dir[l].reportLength) <==> dir[l].key == key)
            else r == Miss
  {
    ScanOn(run, inputs, m, n - m - 1, key);
    if InForce(run, inputs, m, n - 1) {
      InForceOn(run, inputs, m, n - 1);
    }
    AnswerAt(run, inputs, n, run[m], inputs[m].descriptorGeneration, key, n - m - 1);
  }

  lemma {:induction false} AnswerComes(run: seq<State>, inputs: seq<Inputs>, m: nat, d: nat, key: LayoutKey)
    returns (n: nat)
    requires IsRun(run, inputs) && m + 1 < |inputs| && Asks(run, inputs, m, key) && Shaped(run[m])
    requires d == 0 || d < Active(run[m]).layoutCount
    requires Unanswered(run, m, m + d + 1) && m + Active(run[m]).layoutCount < |inputs|
    ensures m < n <= m + if Active(run[m]).layoutCount == 0 then 1 else Active(run[m]).layoutCount
    ensures Unanswered(run, m, n) && run[n + 1].look.result.Some?
    decreases Active(run[m]).layoutCount - d
  {
    n := m + d + 1;
    if run[n + 1].look.result.None? {
      ScanOn(run, inputs, m, d + 1, key);
      n := AnswerComes(run, inputs, m, d + 1, key);
    }
  }

  /** It is answered, whatever becomes of the map: on the first clock of the scan if the map has no layouts,
   *  and otherwise within as many clocks as it has. */
  lemma QueryEnds(run: seq<State>, inputs: seq<Inputs>, m: nat, key: LayoutKey) returns (n: nat)
    requires IsRun(run, inputs) && m + 1 < |inputs| && Asks(run, inputs, m, key)
    requires Shaped(run[m]) && m + Active(run[m]).layoutCount < |inputs|
    ensures m < n <= m + if Active(run[m]).layoutCount == 0 then 1 else Active(run[m]).layoutCount
    ensures Unanswered(run, m, n) && run[n + 1].look.result.Some?
  {
    ScanBeginsAt(run, inputs, m, key);
    n := AnswerComes(run, inputs, m, 0, key);
  }
}
