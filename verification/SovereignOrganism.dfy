/** The pulse: one pass over the organs in activation order. */
module SovereignOrganism {
  import opened Wrappers
  import opened OrganRegistry

  datatype OrganState = Vital | Dormant | Critical | Pending

  /** What checking an organ does: return a state, or throw. */
  datatype CheckResult = Returned(state: OrganState) | Threw

  predicate Up(s: OrganState) {
    s == Vital || s == Dormant
  }

  predicate Sound(r: CheckResult) {
    r == Returned(Vital) || r == Returned(Dormant)
  }

  type Checks<!Id> = Id -> CheckResult

  // ---------- Transitive dependencies ----------

  ghost predicate IsPath<Id>(g: Graph<Id>, p: seq<Id>) {
    p != [] && forall i :: 0 <= i < |p| - 1 ==> p[i + 1] in g.deps(p[i])
  }

  /** b is a or one of its transitive dependencies. */
  ghost predicate Reaches<Id(!new)>(g: Graph<Id>, a: Id, b: Id) {
    exists p :: IsPath(g, p) && p[0] == a && p[|p| - 1] == b
  }

  ghost predicate AllSound<Id(!new)>(g: Graph<Id>, check: Checks<Id>, id: Id) {
    forall x :: Reaches(g, id, x) ==> Sound(check(x))
  }

  /** An organ and all below it are sound when it is and all below each dependency are. */
  lemma AllSoundUnfold<Id(!new)>(g: Graph<Id>, check: Checks<Id>, id: Id)
    ensures AllSound(g, check, id) <==> Sound(check(id)) && forall d :: d in g.deps(id) ==> AllSound(g, check, d)
  {
    if AllSound(g, check, id) {
      assert IsPath(g, [id]);
      assert Reaches(g, id, id);
      forall d, x | d in g.deps(id) && Reaches(g, d, x) ensures Sound(check(x)) {
        var p :| IsPath(g, p) && p[0] == d && p[|p| - 1] == x;
        var q := [id] + p;
        assert IsPath(g, q) && q[0] == id && q[|q| - 1] == x;
        assert Reaches(g, id, x);
      }
    }
    if Sound(check(id)) && forall d :: d in g.deps(id) ==> AllSound(g, check, d) {
      forall x | Reaches(g, id, x) ensures Sound(check(x)) {
        var p :| IsPath(g, p) && p[0] == id && p[|p| - 1] == x;
        if |p| > 1 {
          var q := p[1..];
          assert IsPath(g, q) && q[0] == p[1] && q[|q| - 1] == x;
          assert Reaches(g, p[1], x);
          assert AllSound(g, check, p[1]);
        }
      }
    }
  }

  // ---------- One pass ----------

  type Statuses<Id> = map<Id, OrganState>

  predicate DependenciesSatisfied<Id>(g: Graph<Id>, statuses: Statuses<Id>, id: Id) {
    forall d :: d in g.deps(id) ==> d in statuses && Up(statuses[d])
  }

  predicate Fails<Id>(g: Graph<Id>, statuses: Statuses<Id>, check: Checks<Id>, id: Id) {
    !DependenciesSatisfied(g, statuses, id) || check(id).Threw?
  }

  function Settled<Id>(g: Graph<Id>, statuses: Statuses<Id>, check: Checks<Id>, id: Id): OrganState {
    if Fails(g, statuses, check, id) then Critical else check(id).state
  }

  /** The statuses after the organs of the list have been evaluated in order. */
  function Pass<Id>(g: Graph<Id>, statuses: Statuses<Id>, check: Checks<Id>, order: seq<Id>): Statuses<Id> {
    if order == [] then statuses
    else
      var before := Pass(g, statuses, check, order[..|order| - 1]);
      before[order[|order| - 1] := Settled(g, before, check, order[|order| - 1])]
  }

  predicate AnyFails<Id>(g: Graph<Id>, statuses: Statuses<Id>, check: Checks<Id>, order: seq<Id>) {
    if order == [] then false
    else
      var prefix := order[..|order| - 1];
      AnyFails(g, statuses, check, prefix) || Fails(g, Pass(g, statuses, check, prefix), check, order[|order| - 1])
  }

  /** The evaluated organs are as their checks say, or critical where a check threw or something below is unsound, whatever they were before. */
  lemma {:induction false} PassSettles<Id(!new)>(g: Graph<Id>, statuses: Statuses<Id>, check: Checks<Id>, order: seq<Id>)
    requires NoRepeats(order) && DependenciesFirst(g, order)
    ensures forall x :: x in Pass(g, statuses, check, order) <==> x in statuses || x in order
    ensures forall x :: x in order ==>
      Pass(g, statuses, check, order)[x] ==
        if check(x).Threw? || exists d :: d in g.deps(x) && !AllSound(g, check, d) then Critical else check(x).state
    ensures forall x :: x in order ==> (Pass(g, statuses, check, order)[x] in {Vital, Dormant} <==> AllSound(g, check, x))
    decreases |order|
  {
    hide AllSound;
    if order != [] {
      var n := |order| - 1;
      var prefix, last := order[..n], order[n];
      PrefixOrdered(g, order);
      PassSettles(g, statuses, check, prefix);
      AllSoundUnfold(g, check, last);
      forall d | d in g.deps(last) ensures d in prefix {}
      assert last !in prefix;
    }
  }

  lemma PrefixOrdered<Id(!new)>(g: Graph<Id>, order: seq<Id>)
    requires order != [] && NoRepeats(order) && DependenciesFirst(g, order)
    ensures NoRepeats(order[..|order| - 1]) && DependenciesFirst(g, order[..|order| - 1])
  {
    var prefix := order[..|order| - 1];
    forall i, d | 0 <= i < |prefix| && d in g.deps(prefix[i]) ensures d in prefix[..i] {
      assert prefix[..i] == order[..i];
    }
  }

  /** Some evaluation fails exactly when a check throws or something below an organ is unsound. */
  lemma {:induction false} FailureExactly<Id(!new)>(g: Graph<Id>, statuses: Statuses<Id>, check: Checks<Id>, order: seq<Id>)
    requires NoRepeats(order) && DependenciesFirst(g, order)
    ensures AnyFails(g, statuses, check, order) <==>
      exists id :: id in order && (check(id).Threw? || exists d :: d in g.deps(id) && !AllSound(g, check, d))
    decreases |order|
  {
    hide AllSound, Pass;
    if order != [] {
      var n := |order| - 1;
      var prefix, last := order[..n], order[n];
      PrefixOrdered(g, order);
      FailureExactly(g, statuses, check, prefix);
      PassSettles(g, statuses, check, prefix);
      forall d | d in g.deps(last) ensures d in prefix {}
      assert last in order;
      assert forall x :: x in order <==> x in prefix || x == last;
    }
  }

  /** Every organ is up exactly when every check is sound. */
  lemma AllUpExactly<Id(!new)>(g: Graph<Id>, check: Checks<Id>, rank: Id -> nat)
    requires Acyclic(g, rank)
    ensures (forall id :: id in g.ids ==> AllSound(g, check, id)) <==> (forall id :: id in g.ids ==> Sound(check(id)))
  {
    if forall id :: id in g.ids ==> Sound(check(id)) {
      forall id, x | id in g.ids && Reaches(g, id, x) ensures Sound(check(x)) {
        var p :| IsPath(g, p) && p[0] == id && p[|p| - 1] == x;
        PathStays(g, p, rank);
      }
    }
    forall id | id in g.ids && AllSound(g, check, id) ensures Sound(check(id)) {
      AllSoundUnfold(g, check, id);
    }
  }

  lemma {:induction false} PathStays<Id(!new)>(g: Graph<Id>, p: seq<Id>, rank: Id -> nat)
    requires Acyclic(g, rank) && IsPath(g, p) && p[0] in g.ids
    ensures p[|p| - 1] in g.ids
    decreases |p|
  {
    if |p| > 1 {
      PathStays(g, p[1..], rank);
    }
  }

  // ---------- The organism ----------

  class SovereignOrganism<Id(==,!new)> {
    const graph: Graph<Id>
    var statuses: Statuses<Id>
    var lockdown: bool
    var pulseGeneration: nat

    ghost predicate Valid()
      reads this
    {
      forall id :: id in statuses <==> id in graph.ids
    }

    constructor (graph: Graph<Id>, ghost rank: Id -> nat)
      requires Acyclic(graph, rank)
      ensures this.graph == graph && Valid() && !lockdown && pulseGeneration == 0
      ensures forall id :: id in graph.ids ==> statuses[id] == Pending
    {
      this.graph := graph;
      statuses := map[];
      lockdown := false;
      pulseGeneration := 0;
      new;
      var order := OrganActivationOrder(graph, rank);
      for i := 0 to |order|
        invariant forall id :: id in statuses <==> id in order[..i]
        invariant forall id :: id in statuses ==> statuses[id] == Pending
        invariant this.graph == graph && !lockdown && pulseGeneration == 0
      {
        statuses := statuses[order[i] := Pending];
      }
      assert order[..|order|] == order;
    }

    predicate IsVital()
      reads this
    {
      !lockdown && forall id :: id in statuses ==> Up(statuses[id])
    }

    /**
     * Whatever the statuses before, an organ is critical afterwards if its check threw or
     * something among its transitive dependencies was unsound in this pulse, and
     * otherwise exactly as its check says.
     */
    method Pulse(check: Checks<Id>, ghost rank: Id -> nat)
      requires Valid() && Acyclic(graph, rank)
      modifies this
      ensures Valid() && pulseGeneration == old(pulseGeneration) + 1
      ensures forall id :: id in graph.ids ==>
        statuses[id] == if check(id).Threw? || exists d :: d in graph.deps(id) && !AllSound(graph, check, d) then Critical else check(id).state
      ensures forall id :: id in graph.ids ==> (statuses[id] in {Vital, Dormant} <==> AllSound(graph, check, id))
      ensures IsVital() <==> forall id :: id in graph.ids ==> Sound(check(id))
      ensures lockdown <==>
        exists id :: id in graph.ids && (check(id).Threw? || exists d :: d in graph.deps(id) && !AllSound(graph, check, d))
    {
      hide AllSound, Pass, AnyFails;
      pulseGeneration := pulseGeneration + 1;
      var order := OrganActivationOrder(graph, rank);
      var anyCritical := EvaluateAll(order, check);
      lockdown := anyCritical;
      PulseOutcome(graph, old(statuses), check, order, rank);
    }

    method EvaluateAll(order: seq<Id>, check: Checks<Id>) returns (anyCritical: bool)
      modifies this`statuses
      ensures statuses == Pass(graph, old(statuses), check, order)
      ensures anyCritical == AnyFails(graph, old(statuses), check, order)
    {
      anyCritical := false;
      for i := 0 to |order|
        invariant statuses == Pass(graph, old(statuses), check, order[..i])
        invariant anyCritical == AnyFails(graph, old(statuses), check, order[..i])
      {
        hide DependenciesSatisfied;
        assert order[..i + 1][..i] == order[..i];
        var id := order[i];
        if !DependenciesSatisfied(graph, statuses, id) {
          statuses := statuses[id := Critical];
          anyCritical := true;
          continue;
        }
        var result := check(id);
        if result.Returned? {
          statuses := statuses[id := result.state];
        } else {
          statuses := statuses[id := Critical];
          anyCritical := true;
        }
      }
      assert order[..|order|] == order;
    }
  }

  /** What a pass over all organs in activation order means. */
  lemma PulseOutcome<Id(!new)>(g: Graph<Id>, before: Statuses<Id>, check: Checks<Id>, order: seq<Id>, rank: Id -> nat)
    requires Acyclic(g, rank) && NoRepeats(order) && DependenciesFirst(g, order)
    requires forall x :: x in order <==> x in g.ids
    requires forall x :: x in before <==> x in g.ids
    ensures
      var after := Pass(g, before, check, order);
      var locked := AnyFails(g, before, check, order);
      && (forall x :: x in after <==> x in g.ids)
      && (forall id :: id in g.ids ==>
            after[id] == if check(id).Threw? || exists d :: d in g.deps(id) && !AllSound(g, check, d) then Critical else check(id).state)
      && (forall id :: id in g.ids ==> (after[id] in {Vital, Dormant} <==> AllSound(g, check, id)))
      && (locked <==> exists id :: id in g.ids && (check(id).Threw? || exists d :: d in g.deps(id) && !AllSound(g, check, d)))
      && ((!locked && forall id :: id in after ==> Up(after[id])) <==> forall id :: id in g.ids ==> Sound(check(id)))
  {
    hide AllSound, Pass, AnyFails;
    PassSettles(g, before, check, order);
    FailureExactly(g, before, check, order);
    AllUpExactly(g, check, rank);
    if AnyFails(g, before, check, order) {
      var id :| id in order && (check(id).Threw? || exists d :: d in g.deps(id) && !AllSound(g, check, d));
      AllSoundUnfold(g, check, id);
    }
  }
}
