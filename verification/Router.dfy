/**
  `router.Router`: the node table and the index from model alias to nodes, which is rebuilt from
  the table on every change. Go visits a map in any order; so do the loops here.
 */
module Routers {

  datatype EndpointType = Chat | Embedding | Responses | All | Other(name: string)

  datatype ModelNode = ModelNode(id: string, name: string, aliases: seq<string>, endpointType: EndpointType,
                                 enabled: bool)

  type Table = map<string, ModelNode>

  type Index = map<string, seq<ModelNode>>

  /** All on either side is a wildcard. */
  predicate EndpointMatches(nodeType: EndpointType, requested: EndpointType) {
    if nodeType == All || requested == All then true else nodeType == requested
  }

  /** The node is in the table, under its own ID. */
  predicate Listed(nodes: Table, n: ModelNode) {
    n.id in nodes && nodes[n.id] == n
  }

  function Bucket(idx: Index, alias: string): seq<ModelNode> {
    if alias in idx then idx[alias] else []
  }

  /** How often a scan of the table that lists each node once per mention of the alias meets n. */
  function Mentions(nodes: Table, alias: string, n: ModelNode): nat {
    if Listed(nodes, n) then multiset(n.aliases)[alias] else 0
  }

  /** The same for the nodes that can serve a request: Resolve's meaning. */
  function Serves(nodes: Table, alias: string, et: EndpointType, n: ModelNode): nat {
    if n.enabled && EndpointMatches(n.endpointType, et) then Mentions(nodes, alias, n) else 0
  }

  /** The last node in the list with the given ID. */
  function LastWith(ns: seq<ModelNode>, id: string): seq<ModelNode> {
    if ns == [] then []
    else if ns[|ns| - 1].id == id then [ns[|ns| - 1]]
    else LastWith(ns[..|ns| - 1], id)
  }

  /** A change of the table. */
  datatype Change = Sync(ns: seq<ModelNode>) | AddOrUpdate(n: ModelNode) | Remove(id: string)

  function SyncTable(ns: seq<ModelNode>): Table {
    if ns == [] then map[] else SyncTable(ns[..|ns| - 1])[ns[|ns| - 1].id := ns[|ns| - 1]]
  }

  function TableAfter(t: Table, changes: seq<Change>): Table {
    if changes == [] then t
    else
      var before := TableAfter(t, changes[..|changes| - 1]);
      match changes[|changes| - 1]
      case Sync(ns) => SyncTable(ns)
      case AddOrUpdate(n) => before[n.id := n]
      case Remove(id) => before - {id}
  }

  /** Of several nodes with one ID in a Sync the last stays. */
  lemma {:induction false} LastStays(ns: seq<ModelNode>, id: string)
    ensures id in SyncTable(ns) <==> LastWith(ns, id) != []
    ensures id in SyncTable(ns) ==> LastWith(ns, id) == [SyncTable(ns)[id]] && SyncTable(ns)[id].id == id
  {
    if ns != [] { LastStays(ns[..|ns| - 1], id); }
  }

  class Router {
    var nodes: Table
    var aliasIdx: Index

    /** Every node is under its own ID, and the index agrees with the table. */
    ghost predicate Valid()
      reads this
    {
      && (forall id <- nodes.Keys :: nodes[id].id == id)
      && (forall alias, n :: multiset(Bucket(aliasIdx, alias))[n] == Mentions(nodes, alias, n))
    }

    constructor ()
      ensures Valid() && nodes == map[]
    {
      nodes, aliasIdx := map[], map[];
    }

    /** Adds a node to the bucket of each alias it mentions. */
    method AddAliases(idx0: Index, n: ModelNode) returns (idx: Index)
      ensures forall alias, m :: multiset(Bucket(idx, alias))[m]
                                 == multiset(Bucket(idx0, alias))[m] + if m == n then multiset(n.aliases)[alias] else 0
    {
      idx := idx0;
      for i := 0 to |n.aliases|
        invariant forall alias, m :: multiset(Bucket(idx, alias))[m]
                    == multiset(Bucket(idx0, alias))[m] + if m == n then multiset(n.aliases[..i])[alias] else 0
      {
        assert n.aliases[..i + 1] == n.aliases[..i] + [n.aliases[i]];
        var bucket := Bucket(idx, n.aliases[i]) + [n];
        idx := idx[n.aliases[i] := bucket];
      }
      assert n.aliases[..|n.aliases|] == n.aliases;
    }

    method RebuildAliasIdx()
      requires forall id <- nodes.Keys :: nodes[id].id == id
      modifies this`aliasIdx
      ensures Valid()
    {
      var idx: Index := map[];
      var todo := nodes.Keys;
      while todo != {}
        invariant todo <= nodes.Keys
        invariant forall alias, m :: multiset(Bucket(idx, alias))[m]
                                     == if m.id in todo then 0 else Mentions(nodes, alias, m)
        decreases todo
      {
        var id :| id in todo;
        idx := AddAliases(idx, nodes[id]);
        todo := todo - {id};
      }
      aliasIdx := idx;
    }

    /** Replaces the table. */
    method Sync(ns: seq<ModelNode>)
      modifies this
      ensures Valid() && nodes == SyncTable(ns)
    {
      nodes := map[];
      for i := 0 to |ns|
        invariant nodes == SyncTable(ns[..i]) && forall id <- nodes.Keys :: nodes[id].id == id
      {
        assert ns[..i + 1][..i] == ns[..i];
        nodes := nodes[ns[i].id := ns[i]];
      }
      assert ns[..|ns|] == ns;
      RebuildAliasIdx();
    }

    method AddOrUpdate(node: ModelNode)
      requires Valid()
      modifies this
      ensures Valid() && nodes == old(nodes)[node.id := node]
    {
      nodes := nodes[node.id := node];
      RebuildAliasIdx();
    }

    method Remove(id: string)
      requires Valid()
      modifies this
      ensures Valid() && nodes == old(nodes) - {id}
    {
      nodes := nodes - {id};
      RebuildAliasIdx();
    }

    /** The lookup through the index finds what a scan of the table finds, no more, no less. */
    method Resolve(alias: string, et: EndpointType) returns (candidates: seq<ModelNode>)
      requires Valid()
      ensures forall n :: multiset(candidates)[n] == Serves(nodes, alias, et, n)
      ensures forall n <- candidates :: n.enabled && Listed(nodes, n)
    {
      var all := Bucket(aliasIdx, alias);
      candidates := [];
      for i := 0 to |all|
        invariant forall n :: multiset(candidates)[n]
                    == if n.enabled && EndpointMatches(n.endpointType, et) then multiset(all[..i])[n] else 0
      {
        assert all[..i + 1] == all[..i] + [all[i]];
        if !all[i].enabled { continue; }
        if !EndpointMatches(all[i].endpointType, et) { continue; }
        candidates := candidates + [all[i]];
      }
      assert all[..|all|] == all;
      forall n | n in candidates ensures n.enabled && Listed(nodes, n) {
        assert multiset(candidates)[n] > 0;
      }
    }

    /** Any sequence of changes leaves the table they describe, with an index that agrees with it. */
    method Replay(changes: seq<Change>)
      requires Valid()
      modifies this
      ensures Valid() && nodes == TableAfter(old(nodes), changes)
    {
      for i := 0 to |changes|
        invariant Valid() && nodes == TableAfter(old(nodes), changes[..i])
      {
        assert changes[..i + 1][..i] == changes[..i];
        match changes[i]
        case Sync(ns) => this.Sync(ns);
        case AddOrUpdate(n) => this.AddOrUpdate(n);
        case Remove(id) => this.Remove(id);
      }
      assert changes[..|changes|] == changes;
    }
  }
}
