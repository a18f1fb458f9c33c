/** The organ dependency graph and its activation order, for any acyclic graph. */
module OrganRegistry {

  /** The organs in registration order, and what each depends on. */
  datatype Graph<!Id> = Graph(ids: seq<Id>, deps: Id -> seq<Id>)

  /** Dependencies are organs of lower rank: the graph has no cycle. */
  ghost predicate Acyclic<Id>(g: Graph<Id>, rank: Id -> nat) {
    forall id, d :: id in g.ids && d in g.deps(id) ==> d in g.ids && rank(d) < rank(id)
  }

  ghost predicate NoRepeats<Id>(s: seq<Id>) {
    forall i, j :: 0 <= i < j < |s| ==> s[i] != s[j]
  }

  /** Everything in the list has its dependencies before it. */
  ghost predicate DependenciesFirst<Id>(g: Graph<Id>, order: seq<Id>) {
    forall i, d :: 0 <= i < |order| && d in g.deps(order[i]) ==> d in order[..i]
  }

  /** The depth-first walk. */
  class Walk<Id(==,!new)> {
    var visited: set<Id>
    var order: seq<Id>

    ghost predicate Valid(g: Graph<Id>)
      reads this
    {
      && (forall x :: x in visited <==> x in order)
      && (forall x :: x in order ==> x in g.ids)
      && NoRepeats(order)
      && DependenciesFirst(g, order)
    }

    constructor ()
      ensures visited == {} && order == []
    {
      visited := {};
      order := [];
    }

    /** Lists an organ after everything it depends on. */
    method Visit(g: Graph<Id>, id: Id, ghost rank: Id -> nat)
      requires Acyclic(g, rank) && id in g.ids && Valid(g)
      modifies this
      ensures Valid(g) && id in order
      ensures old(order) <= order
      ensures forall x :: x in order[|old(order)|..] ==> rank(x) <= rank(id)
      decreases rank(id)
    {
      if id in visited {
        return;
      }
      var deps := g.deps(id);
      for i := 0 to |deps|
        invariant Valid(g) && old(order) <= order
        invariant forall x :: x in order[|old(order)|..] ==> rank(x) < rank(id)
        invariant forall k :: 0 <= k < i ==> deps[k] in order
      {
        ghost var before := order;
        Visit(g, deps[i], rank);
        forall x | x in order[|old(order)|..] ensures rank(x) < rank(id) {
          assert order == before + order[|before|..];
          assert order[|old(order)|..] == before[|old(order)|..] + order[|before|..];
        }
      }
      assert id !in order by {
        assert order == old(order) + order[|old(order)|..];
      }
      ghost var before := order;
      visited := visited + {id};
      order := order + [id];
      assert order[|old(order)|..] == before[|old(order)|..] + [id];
      forall i, d | 0 <= i < |order| && d in g.deps(order[i]) ensures d in order[..i] {
        if i < |before| {
          assert d in before[..i] && before[..i] == order[..i];
        } else {
          assert order[..i] == before;
        }
      }
    }
  }

  /** Every organ exactly once, each after all its dependencies. */
  method OrganActivationOrder<Id(==,!new)>(g: Graph<Id>, ghost rank: Id -> nat) returns (order: seq<Id>)
    requires Acyclic(g, rank)
    ensures NoRepeats(order) && DependenciesFirst(g, order)
    ensures forall x :: x in order <==> x in g.ids
  {
    var walk := new Walk<Id>();
    for i := 0 to |g.ids|
      invariant walk.Valid(g)
      invariant forall k :: 0 <= k < i ==> g.ids[k] in walk.order
    {
      walk.Visit(g, g.ids[i], rank);
    }
    order := walk.order;
  }

  // ---------- The shipped graph ----------

  datatype OrganId =
    | CryptoCore | SupplySpleen | AuditImmune | TpmSkeletal | HsmHeart | CaLiver
    | ConsoleBrain | RateLimitNerves | PqcLungs | GatewaySkin | VaultMarrow

  function OrganDependencies(id: OrganId): seq<OrganId> {
    match id
    case CryptoCore => []
    case SupplySpleen => [CryptoCore]
    case AuditImmune => [CryptoCore]
    case TpmSkeletal => [CryptoCore]
    case HsmHeart => [CryptoCore, TpmSkeletal, AuditImmune]
    case CaLiver => [CryptoCore, AuditImmune, HsmHeart]
    case ConsoleBrain => [AuditImmune, CaLiver]
    case RateLimitNerves => [AuditImmune]
    case PqcLungs => [HsmHeart, CaLiver, AuditImmune, CryptoCore]
    case GatewaySkin => [ConsoleBrain, PqcLungs, AuditImmune, RateLimitNerves]
    case VaultMarrow => [TpmSkeletal, HsmHeart, AuditImmune, CryptoCore]
  }

  const ORGANS := Graph(
    [CryptoCore, SupplySpleen, AuditImmune, TpmSkeletal, HsmHeart, CaLiver,
     ConsoleBrain, RateLimitNerves, PqcLungs, GatewaySkin, VaultMarrow],
    OrganDependencies)

  function OrganRank(id: OrganId): nat {
    match id
    case CryptoCore => 0
    case SupplySpleen => 1
    case AuditImmune => 1
    case TpmSkeletal => 1
    case HsmHeart => 2
    case CaLiver => 3
    case ConsoleBrain => 4
    case RateLimitNerves => 2
    case PqcLungs => 4
    case GatewaySkin => 5
    case VaultMarrow => 3
  }

  lemma ShippedGraphAcyclic()
    ensures Acyclic(ORGANS, OrganRank)
  {
    var g := ORGANS.ids;
    forall id: OrganId ensures id in g {
      match id
      case CryptoCore => assert g[0] == id;
      case SupplySpleen => assert g[1] == id;
      case AuditImmune => assert g[2] == id;
      case TpmSkeletal => assert g[3] == id;
      case HsmHeart => assert g[4] == id;
      case CaLiver => assert g[5] == id;
      case ConsoleBrain => assert g[6] == id;
      case RateLimitNerves => assert g[7] == id;
      case PqcLungs => assert g[8] == id;
      case GatewaySkin => assert g[9] == id;
      case VaultMarrow => assert g[10] == id;
    }
    forall id, d | d in OrganDependencies(id) ensures OrganRank(d) < OrganRank(id) {
    }
  }
}
