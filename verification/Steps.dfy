/** Which steps of a plan are offered for signing, and in which orders a plan can be carried out. */
module Steps {
  import opened Plans
  import opened Signing
  import opened Approval
  import Lists

  predicate Offerable(step: PlanStep, confirmed: set<string>) {
    step.id !in confirmed && forall d | d in step.dependsOn :: d in confirmed
  }

  /** The steps not yet confirmed whose dependencies all are, in plan order. */
  function UnsignedSteps(steps: seq<PlanStep>, confirmed: set<string>): (offered: seq<PlanStep>)
    ensures forall s :: s in offered <==> s in steps && Offerable(s, confirmed)
    ensures |offered| <= |steps|
  {
    if steps == [] then []
    else (if Offerable(steps[0], confirmed) then [steps[0]] else []) + UnsignedSteps(steps[1..], confirmed)
  }

  /**
   * Steps are offered in plan order: what is offered of a plan is what is offered of its parts, one after the
   * other.
   */
  lemma {:induction false} OfferedInPlanOrder(first: seq<PlanStep>, rest: seq<PlanStep>, confirmed: set<string>)
    ensures UnsignedSteps(first + rest, confirmed) == UnsignedSteps(first, confirmed) + UnsignedSteps(rest, confirmed)
  {
    if first == [] {
      assert first + rest == rest;
    } else {
      assert (first + rest)[1..] == first[1..] + rest;
      OfferedInPlanOrder(first[1..], rest, confirmed);
    }
  }

  /** Every step has a greater rank than what it depends on. */
  ghost predicate Ranked(steps: seq<PlanStep>, rank: string -> nat) {
    forall s, d | s in steps && d in s.dependsOn :: rank(d) < rank(s.id)
  }

  /** Steps of the plan, each depending on the next. */
  ghost predicate Path(steps: seq<PlanStep>, path: seq<PlanStep>) {
    && (forall i | 0 <= i < |path| :: path[i] in steps)
    && (forall i | 0 < i < |path| :: path[i].id in path[i - 1].dependsOn)
  }

  /** No step depends on itself, however indirectly. */
  ghost predicate Acyclic(steps: seq<PlanStep>) {
    forall path: seq<PlanStep> | Path(steps, path) && |path| > 1 :: path[0].id != path[|path| - 1].id
  }

  /** With nothing on offer an unconfirmed step waits for another. */
  lemma {:induction false} WaitsFor(steps: seq<PlanStep>, confirmed: set<string>, s: PlanStep)
    returns (next: PlanStep)
    requires DependenciesSound(steps) && UnsignedSteps(steps, confirmed) == []
    requires s in steps && s.id !in confirmed
    ensures next in steps && next.id in s.dependsOn && next.id !in confirmed
  {
    assert s !in UnsignedSteps(steps, confirmed);
    var d :| d in s.dependsOn && d !in confirmed;
    var i :| 0 <= i < |steps| && steps[i] == s;
    assert DependsSoundly(steps[i], steps);
    var j :| 0 <= j < |steps| && steps[j].id == d;
    next := steps[j];
  }

  /** And that one for a third: as long as you like. */
  lemma {:induction false} WaitingPath(steps: seq<PlanStep>, confirmed: set<string>, first: PlanStep, n: nat)
    returns (path: seq<PlanStep>)
    requires DependenciesSound(steps) && UnsignedSteps(steps, confirmed) == []
    requires first in steps && first.id !in confirmed
    ensures |path| == n + 1 && path[0] == first && Path(steps, path)
    decreases n
  {
    path := [first];
    if n > 0 {
      var next := WaitsFor(steps, confirmed, first);
      var rest := WaitingPath(steps, confirmed, next, n - 1);
      path := path + rest;
    }
  }

  lemma {:induction false} PartOfPath(steps: seq<PlanStep>, path: seq<PlanStep>, i: nat, j: nat)
    requires Path(steps, path) && i <= j <= |path|
    ensures Path(steps, path[i..j])
  {
  }

  /** A path longer than the plan comes back to a step. */
  lemma {:induction false} LongPathLoops(steps: seq<PlanStep>, path: seq<PlanStep>)
    requires Path(steps, path) && |path| > |steps|
    ensures !Acyclic(steps)
  {
    var i, j := Lists.Repeats(path, steps);
    PartOfPath(steps, path, i, j + 1);
    LoopIsCycle(steps, path[i..j + 1]);
  }

  lemma {:induction false} LoopIsCycle(steps: seq<PlanStep>, loop: seq<PlanStep>)
    requires Path(steps, loop) && |loop| > 1 && loop[0] == loop[|loop| - 1]
    ensures !Acyclic(steps)
  {
  }

  /** While a step is unconfirmed, something is offered: whatever has been confirmed so far. */
  lemma {:induction false} SomethingIsOffered(steps: seq<PlanStep>, confirmed: set<string>)
    requires DependenciesSound(steps) && Acyclic(steps)
    requires exists s | s in steps :: s.id !in confirmed
    ensures UnsignedSteps(steps, confirmed) != []
  {
    if UnsignedSteps(steps, confirmed) == [] {
      var first :| first in steps && first.id !in confirmed;
      var path := WaitingPath(steps, confirmed, first, |steps|);
      LongPathLoops(steps, path);
      assert false;
    }
  }

  // ----- Carrying a plan out -----

  function Confirmed(order: seq<string>): set<string> {
    set id | id in order
  }

  predicate Offers(steps: seq<PlanStep>, confirmed: set<string>, id: string) {
    exists s | s in UnsignedSteps(steps, confirmed) :: s.id == id
  }

  /** Each step in the order was on offer when it was confirmed. */
  predicate Run(steps: seq<PlanStep>, order: seq<string>) {
    forall k | 0 <= k < |order| :: Offers(steps, Confirmed(order[..k]), order[k])
  }

  predicate Complete(steps: seq<PlanStep>, order: seq<string>) {
    forall s | s in steps :: s.id in order
  }

  lemma {:induction false} SameStep(steps: seq<PlanStep>, a: PlanStep, b: PlanStep)
    requires DependenciesSound(steps) && a in steps && b in steps && a.id == b.id
    ensures a == b
  {
    var i :| 0 <= i < |steps| && steps[i] == a;
    var j :| 0 <= j < |steps| && steps[j] == b;
    assert i == j;
  }

  /** A run confirms no step twice, and none before what it depends on. */
  lemma {:induction false} RunIsTopological(steps: seq<PlanStep>, order: seq<string>)
    requires DependenciesSound(steps) && Run(steps, order)
    ensures forall j, k | 0 <= j < k < |order| :: order[j] != order[k]
    ensures forall k, s | 0 <= k < |order| && s in steps && s.id == order[k] ::
      forall d | d in s.dependsOn :: d in order[..k]
    ensures forall k | 0 <= k < |order| :: HasStep(steps, order[k])
  {
    forall j, k | 0 <= j < k < |order| ensures order[j] != order[k] {
      assert Offers(steps, Confirmed(order[..k]), order[k]);
      assert order[j] == order[..k][j];
    }
    forall k, s | 0 <= k < |order| && s in steps && s.id == order[k]
      ensures forall d | d in s.dependsOn :: d in order[..k]
    {
      assert Offers(steps, Confirmed(order[..k]), order[k]);
      var offered :| offered in UnsignedSteps(steps, Confirmed(order[..k])) && offered.id == order[k];
      SameStep(steps, offered, s);
    }
    forall k | 0 <= k < |order| ensures HasStep(steps, order[k]) {
      assert Offers(steps, Confirmed(order[..k]), order[k]);
    }
  }

  function Ids(steps: seq<PlanStep>): seq<string> {
    seq(|steps|, i requires 0 <= i < |steps| => steps[i].id)
  }

  lemma {:induction false} OnceEach<T>(s: seq<T>, x: T)
    requires forall i, j | 0 <= i < j < |s| :: s[i] != s[j]
    ensures multiset(s)[x] == if x in s then 1 else 0
  {
    if s != [] {
      assert s == [s[0]] + s[1..];
      OnceEach(s[1..], x);
    }
  }

  /** A complete run confirms every step exactly once. */
  lemma {:induction false} CompleteConfirmsOnce(steps: seq<PlanStep>, order: seq<string>)
    requires DependenciesSound(steps) && Run(steps, order) && Complete(steps, order)
    ensures multiset(order) == multiset(Ids(steps)) && |order| == |steps|
  {
    RunIsTopological(steps, order);
    var ids := Ids(steps);
    forall id ensures multiset(order)[id] == multiset(ids)[id] {
      OnceEach(order, id);
      OnceEach(ids, id);
      SameIds(steps, order, id);
    }
    SameBags(order, ids);
  }

  lemma {:induction false} SameIds(steps: seq<PlanStep>, order: seq<string>, id: string)
    requires Complete(steps, order) && forall k | 0 <= k < |order| :: HasStep(steps, order[k])
    ensures id in Ids(steps) <==> id in order
  {
    var ids := Ids(steps);
    if id in ids {
      var i :| 0 <= i < |ids| && ids[i] == id;
      assert steps[i] in steps && steps[i].id in order;
    }
    if id in order {
      var k :| 0 <= k < |order| && order[k] == id;
      var i :| 0 <= i < |steps| && steps[i].id == order[k];
      assert ids[i] == id;
    }
  }

  lemma {:induction false} SameBags<T>(a: seq<T>, b: seq<T>)
    requires forall x :: multiset(a)[x] == multiset(b)[x]
    ensures multiset(a) == multiset(b) && |a| == |b|
  {
    Lists.SameSize(a, b);
  }

  function Open(steps: seq<PlanStep>, order: seq<string>): nat {
    if steps == [] then 0 else (if steps[0].id in order then 0 else 1) + Open(steps[1..], order)
  }

  lemma {:induction false} OpenShrinks(steps: seq<PlanStep>, order: seq<string>, id: string)
    ensures Open(steps, order + [id]) <= Open(steps, order)
    ensures id !in order && (exists s | s in steps :: s.id == id) ==> Open(steps, order + [id]) < Open(steps, order)
  {
    if steps != [] {
      assert steps == [steps[0]] + steps[1..];
      OpenShrinks(steps[1..], order, id);
    }
  }

  lemma {:induction false} Extend(steps: seq<PlanStep>, order: seq<string>, id: string)
    requires Run(steps, order) && Offers(steps, Confirmed(order), id)
    ensures Run(steps, order + [id])
  {
    var longer := order + [id];
    forall k | 0 <= k < |longer| ensures Offers(steps, Confirmed(longer[..k]), longer[k]) {
      if k < |order| { assert longer[..k] == order[..k]; } else { assert longer[..k] == order; }
    }
  }

  /** Any run of an acyclic plan can be carried on to the end. */
  lemma {:induction false} RunCompletes(steps: seq<PlanStep>, order: seq<string>) returns (full: seq<string>)
    requires DependenciesSound(steps) && Acyclic(steps) && Run(steps, order)
    ensures order <= full && Run(steps, full) && Complete(steps, full)
    decreases Open(steps, order)
  {
    if Complete(steps, order) {
      full := order;
    } else {
      var confirmed := Confirmed(order);
      assert exists s | s in steps :: s.id !in confirmed;
      SomethingIsOffered(steps, confirmed);
      var next := UnsignedSteps(steps, confirmed)[0];
      assert next in UnsignedSteps(steps, confirmed);
      Extend(steps, order, next.id);
      OpenShrinks(steps, order, next.id);
      full := RunCompletes(steps, order + [next.id]);
    }
  }

  function IndexIn(order: seq<string>, id: string): (k: nat)
    ensures k <= |order| && (k < |order| ==> order[k] == id) && (id in order ==> k < |order|)
    ensures forall j | 0 <= j < k :: order[j] != id
  {
    if order == [] || order[0] == id then 0 else 1 + IndexIn(order[1..], id)
  }

  function RankIn(order: seq<string>): (rank: string -> nat)
    ensures forall id :: rank(id) == IndexIn(order, id)
  {
    id => IndexIn(order, id)
  }

  lemma {:induction false} CompleteRunRanks(steps: seq<PlanStep>, order: seq<string>)
    requires DependenciesSound(steps) && Run(steps, order) && Complete(steps, order)
    ensures Ranked(steps, RankIn(order))
  {
    RunIsTopological(steps, order);
    forall s, d | s in steps && d in s.dependsOn ensures IndexIn(order, d) < IndexIn(order, s.id) {
      var k := IndexIn(order, s.id);
      assert d in order[..k];
      var j :| 0 <= j < |order[..k]| && order[..k][j] == d;
      assert order[j] == d;
    }
  }

  lemma {:induction false} RankFalls(steps: seq<PlanStep>, rank: string -> nat, path: seq<PlanStep>)
    requires Ranked(steps, rank) && Path(steps, path) && |path| > 1
    ensures rank(path[|path| - 1].id) < rank(path[0].id)
    decreases |path|
  {
    if |path| > 2 {
      var init := path[..|path| - 1];
      assert Path(steps, init);
      RankFalls(steps, rank, init);
    }
    assert path[|path| - 2] in steps;
  }

  lemma {:induction false} RankedIsAcyclic(steps: seq<PlanStep>, rank: string -> nat)
    requires Ranked(steps, rank)
    ensures Acyclic(steps)
  {
    forall path: seq<PlanStep> | Path(steps, path) && |path| > 1 ensures path[0].id != path[|path| - 1].id {
      RankFalls(steps, rank, path);
    }
  }

  /** No dependency path returns to its start exactly when the steps can be ranked, each above what it depends on. */
  lemma {:induction false} AcyclicIffRanked(steps: seq<PlanStep>)
    requires DependenciesSound(steps)
    ensures Acyclic(steps) <==> exists rank :: Ranked(steps, rank)
  {
    if Acyclic(steps) {
      var full := RunCompletes(steps, []);
      CompleteRunRanks(steps, full);
    }
    if rank :| Ranked(steps, rank) {
      RankedIsAcyclic(steps, rank);
    }
  }

  /** A plan can be carried out exactly when its dependencies hold no cycle, which the validator does not check. */
  lemma {:induction false} CompleteRunIffAcyclic(steps: seq<PlanStep>)
    requires DependenciesSound(steps)
    ensures Acyclic(steps) <==> exists order :: Run(steps, order) && Complete(steps, order)
  {
    if Acyclic(steps) {
      var full := RunCompletes(steps, []);
    }
    if order :| Run(steps, order) && Complete(steps, order) {
      CompleteRunRanks(steps, order);
      RankedIsAcyclic(steps, RankIn(order));
    }
  }

  lemma {:induction false} FirstIsOffered(steps: seq<PlanStep>, order: seq<string>)
    ensures Run(steps, order) && order != [] ==> UnsignedSteps(steps, {}) != []
  {
    if Run(steps, order) && order != [] {
      assert Offers(steps, Confirmed(order[..0]), order[0]);
      assert Confirmed(order[..0]) == {};
    }
  }

  /** Two steps that wait for each other pass the dependency check, and neither is ever offered. */
  lemma {:induction false} TwoStepsWait(a: PlanStep, b: PlanStep)
    requires a.id != b.id && a.dependsOn == [b.id] && b.dependsOn == [a.id]
    ensures DependenciesSound([a, b]) && UnsignedSteps([a, b], {}) == []
    ensures !Acyclic([a, b]) && forall order :: Run([a, b], order) ==> order == []
  {
    var steps := [a, b];
    assert steps[0].id == a.id && steps[1].id == b.id;
    assert b.id in a.dependsOn && a.id in b.dependsOn;
    assert steps[1..] == [b];
    var loop := [a, b, a];
    assert Path(steps, loop) && loop[0].id == loop[2].id;
    forall order ensures Run(steps, order) ==> order == [] {
      FirstIsOffered(steps, order);
    }
  }
}
