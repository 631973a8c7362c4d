/**
  `proxy.DeepMerge`: merges a node's override into a request body, in place. Decoded JSON objects
  are mutable maps reached by reference, so after a merge the body can share sub-maps with the
  override. Lists are never merged and count as atoms.
 */
module DeepMerge {
  import opened Basics

  // ---- Merging values ----------------------------------------------------------------

  /** A JSON value; Null is an atom like any other, so an override can store a null. */
  datatype Json = Null | Atom(text: string) | Object(fields: Fields)

  type Fields = map<string, Json>

  /** The merge as an operation on values. */
  function Merge(dst: Fields, src: Fields): Fields
    decreases Object(src)
  {
    map k | k in dst.Keys + src.Keys ::
      if k !in src then dst[k]
      else if k in dst && dst[k].Object? && src[k].Object? then Object(Merge(dst[k].fields, src[k].fields))
      else src[k]
  }

  /** The value a path of keys leads to. */
  function Lookup(j: Json, path: seq<string>): Option<Json> {
    if path == [] then Some(j)
    else if j.Object? && path[0] in j.fields then Lookup(j.fields[path[0]], path[1..])
    else None
  }

  /** The override says nothing about the path: it has objects up to some point and then no such key. */
  predicate Silent(j: Json, path: seq<string>) {
    path != [] && j.Object? && (path[0] !in j.fields || Silent(j.fields[path[0]], path[1..]))
  }

  function Merged(dst: Fields, src: Fields): Json {
    Object(Merge(dst, src))
  }

  /** Wherever the override has a value that is not an object, a null included, that value wins. */
  lemma {:induction false} OverrideWins(dst: Fields, src: Fields, path: seq<string>)
    requires path != [] && Lookup(Object(src), path).Some? && !Lookup(Object(src), path).value.Object?
    ensures Lookup(Merged(dst, src), path) == Lookup(Object(src), path)
    decreases path
  {
    var k := path[0];
    if k in dst && dst[k].Object? && src[k].Object? {
      OverrideWins(dst[k].fields, src[k].fields, path[1..]);
    }
  }

  /** Wherever the override is silent, the body keeps what it had. */
  lemma {:induction false} BodyKept(dst: Fields, src: Fields, path: seq<string>)
    requires Silent(Object(src), path) && Lookup(Object(dst), path).Some?
    ensures Lookup(Merged(dst, src), path) == Lookup(Object(dst), path)
    decreases path
  {
    var k := path[0];
    if k in src {
      BodyKept(dst[k].fields, src[k].fields, path[1..]);
    }
  }

  /** A merge makes nothing up: what it holds anywhere, short of an object, one of the two held there. */
  lemma {:induction false} NothingMadeUp(dst: Fields, src: Fields, path: seq<string>)
    requires Lookup(Merged(dst, src), path).Some? && !Lookup(Merged(dst, src), path).value.Object?
    ensures Lookup(Merged(dst, src), path) in {Lookup(Object(dst), path), Lookup(Object(src), path)}
    decreases path
  {
    var k := path[0];
    if k in src && k in dst && dst[k].Object? && src[k].Object? {
      NothingMadeUp(dst[k].fields, src[k].fields, path[1..]);
    }
  }

  lemma {:induction false} MergeSelf(src: Fields)
    ensures Merge(src, src) == src
    decreases Object(src)
  {
    forall k | k in src && src[k].Object? ensures Merge(src[k].fields, src[k].fields) == src[k].fields {
      MergeSelf(src[k].fields);
    }
  }

  /** Applying an override twice is applying it once. */
  lemma {:induction false} MergeIsIdempotent(dst: Fields, src: Fields)
    ensures Merge(Merge(dst, src), src) == Merge(dst, src)
    decreases Object(src)
  {
    var m := Merge(dst, src);
    forall k | k in m ensures Merge(m, src)[k] == m[k] {
      if k in src && src[k].Object? {
        MergeSelf(src[k].fields);
        if k in dst && dst[k].Object? {
          MergeIsIdempotent(dst[k].fields, src[k].fields);
        }
      }
    }
  }

  // ---- Maps on the heap --------------------------------------------------------------------

  class JsonMap {
    var entries: map<string, Value>
  }

  /** What a key of such a map holds: an atom or a reference to another map. */
  datatype Value = Plain(atom: Json) | Ref(o: JsonMap)

  /** How values hang together on the heap: which maps there are, and which keys lead where. */
  datatype Shape = Leaf(atom: Json) | Node(o: JsonMap, kids: map<string, Shape>)

  ghost function Root(s: Shape): Value {
    match s case Leaf(a) => Plain(a) case Node(o, _) => Ref(o)
  }

  /** All maps of a shape. */
  ghost function Maps(s: Shape): set<JsonMap> {
    match s
    case Leaf(_) => {}
    case Node(o, kids) => {o} + set k, x | k in kids && x in Maps(kids[k]) :: x
  }

  /** The contents of some maps at one moment. */
  type Store = map<JsonMap, map<string, Value>>

  ghost function Snapshot(world: set<JsonMap>): Store
    reads world
  {
    map o | o in world :: o.entries
  }

  /** The store has this shape. */
  ghost predicate Has(s: Shape, h: Store) {
    match s
    case Leaf(_) => true
    case Node(o, kids) =>
      && o in h && h[o].Keys == kids.Keys
      && forall k <- kids.Keys :: h[o][k] == Root(kids[k]) && Has(kids[k], h)
  }

  /** A shape none of whose maps changed is still there. */
  lemma {:induction false} StillHas(s: Shape, h: Store, h': Store)
    requires Has(s, h) && forall x <- Maps(s) :: x in h ==> x in h' && h[x] == h'[x]
    ensures Has(s, h')
    decreases s
  {
    if s.Node? {
      assert s.o in Maps(s);
      forall k | k in s.kids ensures Has(s.kids[k], h') {
        StillHas(s.kids[k], h, h');
      }
    }
  }

  /** Objects appear as maps, never as atoms. */
  ghost predicate Proper(s: Shape) {
    match s
    case Leaf(a) => !a.Object?
    case Node(_, kids) => forall k <- kids.Keys :: Proper(kids[k])
  }

  /** The JSON value that a shape holds. */
  ghost function ValueOf(s: Shape): Json {
    match s
    case Leaf(a) => a
    case Node(_, kids) => Object(map k | k in kids :: ValueOf(kids[k]))
  }

  /** No map occurs twice: what decoding JSON text produces. */
  ghost predicate IsTree(s: Shape) {
    s.Node? ==>
      && (forall k <- s.kids.Keys :: IsTree(s.kids[k]) && s.o !in Maps(s.kids[k]))
      && (forall k, l :: k in s.kids && l in s.kids && k != l ==> Maps(s.kids[k]) !! Maps(s.kids[l]))
  }

  /** The shape after a merge: d's maps where both have one, s's maps, shared, elsewhere. */
  ghost function MergedShape(d: Shape, s: Shape): (r: Shape)
    requires d.Node? && s.Node?
    ensures r.Node? && r.o == d.o
    decreases s
  {
    Node(d.o, map k | k in d.kids.Keys + s.kids.Keys ::
      if k !in s.kids then d.kids[k]
      else if k in d.kids && d.kids[k].Node? && s.kids[k].Node? then MergedShape(d.kids[k], s.kids[k])
      else s.kids[k])
  }

  lemma {:induction false} MergedMaps(d: Shape, s: Shape)
    requires d.Node? && s.Node?
    ensures Maps(MergedShape(d, s)) <= Maps(d) + Maps(s)
    decreases s
  {
    var r := MergedShape(d, s);
    forall k, x | k in r.kids && x in Maps(r.kids[k]) ensures x in Maps(d) + Maps(s) {
      if k in s.kids && k in d.kids && d.kids[k].Node? && s.kids[k].Node? {
        MergedMaps(d.kids[k], s.kids[k]);
      }
    }
  }

  /** The merged shape holds the merged value. */
  lemma {:induction false} MergedValue(d: Shape, s: Shape)
    requires d.Node? && s.Node? && Proper(d) && Proper(s)
    ensures ValueOf(MergedShape(d, s)) == Merged(ValueOf(d).fields, ValueOf(s).fields)
    ensures Proper(MergedShape(d, s))
    decreases s
  {
    var r, a, b := MergedShape(d, s), ValueOf(d).fields, ValueOf(s).fields;
    forall k | k in r.kids ensures ValueOf(r.kids[k]) == Merge(a, b)[k] && Proper(r.kids[k]) {
      if k in d.kids { assert Proper(d.kids[k]) && (ValueOf(d.kids[k]).Object? <==> d.kids[k].Node?); }
      if k in s.kids { assert Proper(s.kids[k]) && (ValueOf(s.kids[k]).Object? <==> s.kids[k].Node?); }
      if k in s.kids && k in d.kids && d.kids[k].Node? && s.kids[k].Node? {
        MergedValue(d.kids[k], s.kids[k]);
      }
    }
  }

  /** A map that the merge of key k changes is reached by no other key, done or still to do. */
  lemma KeysApart(d: Shape, s: Shape, k: string, l: string)
    requires d.Node? && s.Node? && IsTree(d) && Maps(d) !! Maps(s)
    requires k in d.kids && l != k && l in MergedShape(d, s).kids
    ensures Maps(d.kids[k]) !! Maps(MergedShape(d, s).kids[l])
    ensures l in d.kids ==> Maps(d.kids[k]) !! Maps(d.kids[l])
  {
    assert Maps(d.kids[k]) <= Maps(d);
    KidMaps(d, s, l);
  }

  lemma KidMaps(d: Shape, s: Shape, l: string)
    requires d.Node? && s.Node? && IsTree(d) && Maps(d) !! Maps(s) && l in MergedShape(d, s).kids
    ensures d.o !in Maps(MergedShape(d, s).kids[l])
    ensures Maps(MergedShape(d, s).kids[l]) <= (if l in d.kids then Maps(d.kids[l]) else {}) + Maps(s)
  {
    if l in s.kids {
      assert Maps(s.kids[l]) <= Maps(s);
      if l in d.kids && d.kids[l].Node? && s.kids[l].Node? {
        MergedMaps(d.kids[l], s.kids[l]);
      }
    }
  }

  /** What a key of the destination holds: its own kid before its turn, the merged one after. */
  ghost function Slot(d: Shape, s: Shape, todo: set<string>, l: string): Shape
    requires d.Node? && s.Node? && l in d.kids.Keys + (s.kids.Keys - todo)
  {
    if l in todo then d.kids[l] else MergedShape(d, s).kids[l]
  }

  lemma SlotMaps(d: Shape, s: Shape, todo: set<string>, l: string)
    requires d.Node? && s.Node? && IsTree(d) && Maps(d) !! Maps(s) && l in d.kids.Keys + (s.kids.Keys - todo)
    ensures Maps(Slot(d, s, todo, l)) <= Maps(d) + Maps(s) && d.o !in Maps(Slot(d, s, todo, l))
    ensures forall k <- d.kids.Keys :: k != l ==> Maps(d.kids[k]) !! Maps(Slot(d, s, todo, l))
  {
    KidMaps(d, s, l);
    if l in d.kids { assert Maps(d.kids[l]) <= Maps(d); }
    forall k | k in d.kids && k != l ensures Maps(d.kids[k]) !! Maps(Slot(d, s, todo, l)) {
      KeysApart(d, s, k, l);
    }
  }

  ghost predicate Ready(d: Shape, s: Shape) {
    d.Node? && s.Node? && IsTree(d) && Maps(d) !! Maps(s)
  }

  /** The destination while the keys in `todo` are still to be merged. */
  ghost predicate Halfway(d: Shape, s: Shape, todo: set<string>, h: Store)
    requires d.Node? && s.Node?
  {
    && d.o in h && todo <= s.kids.Keys
    && h[d.o].Keys == d.kids.Keys + (s.kids.Keys - todo)
    && forall l <- h[d.o].Keys :: h[d.o][l] == Root(Slot(d, s, todo, l)) && Has(Slot(d, s, todo, l), h)
  }

  /** The two stores differ at most in the given maps. */
  ghost predicate Apart(h: Store, h': Store, touched: set<JsonMap>) {
    forall x <- h.Keys :: x !in touched ==> x in h' && h[x] == h'[x]
  }

  lemma OtherSlotsKept(d: Shape, s: Shape, k: string, todo: set<string>, h: Store, h': Store, touched: set<JsonMap>,
                       l: string)
    requires Ready(d, s) && Halfway(d, s, todo, h) && k in todo && Apart(h, h', touched)
    requires l in h[d.o] && l != k && Maps(Slot(d, s, todo, l)) !! touched
    ensures l in d.kids.Keys + (s.kids.Keys - (todo - {k}))
    ensures h[d.o][l] == Root(Slot(d, s, todo - {k}, l)) && Has(Slot(d, s, todo - {k}, l), h')
  {
    assert Slot(d, s, todo - {k}, l) == Slot(d, s, todo, l);
    StillHas(Slot(d, s, todo, l), h, h');
  }

  lemma OthersKept(d: Shape, s: Shape, k: string, todo: set<string>, h: Store, h': Store, touched: set<JsonMap>)
    requires Ready(d, s) && Halfway(d, s, todo, h) && k in todo && Apart(h, h', touched)
    requires touched == {d.o} || (k in d.kids && touched == Maps(d.kids[k]))
    ensures forall l <- h[d.o].Keys :: l != k ==>
              && l in d.kids.Keys + (s.kids.Keys - (todo - {k}))
              && h[d.o][l] == Root(Slot(d, s, todo - {k}, l)) && Has(Slot(d, s, todo - {k}, l), h')
  {
    forall l | l in h[d.o] && l != k
      ensures l in d.kids.Keys + (s.kids.Keys - (todo - {k}))
      ensures h[d.o][l] == Root(Slot(d, s, todo - {k}, l)) && Has(Slot(d, s, todo - {k}, l), h')
    {
      SlotMaps(d, s, todo, l);
      OtherSlotsKept(d, s, k, todo, h, h', touched, l);
    }
  }

  /** A turn of the loop where the source's value replaces or adds the key. */
  lemma StoreTurn(d: Shape, s: Shape, k: string, todo: set<string>, h: Store, h': Store)
    requires Ready(d, s) && Halfway(d, s, todo, h) && Has(s, h) && k in todo
    requires k !in d.kids || d.kids[k].Leaf? || s.kids[k].Leaf?
    requires h' == h[d.o := h[d.o][k := h[s.o][k]]]
    ensures Halfway(d, s, todo - {k}, h') && Has(s, h')
  {
    assert d.o in Maps(d) && Maps(s.kids[k]) <= Maps(s) && Apart(h, h', {d.o});
    StillHas(s, h, h');
    assert Slot(d, s, todo - {k}, k) == s.kids[k] && Has(s.kids[k], h');
    assert h'[d.o].Keys == h[d.o].Keys + {k};
    OthersKept(d, s, k, todo, h, h', {d.o});
  }

  /** A turn of the loop where both sides hold maps. */
  lemma MergeTurn(d: Shape, s: Shape, k: string, todo: set<string>, h: Store, h': Store)
    requires Ready(d, s) && Halfway(d, s, todo, h) && Has(s, h) && k in todo
    requires k in d.kids && d.kids[k].Node? && s.kids[k].Node?
    requires Apart(h, h', Maps(d.kids[k])) && Has(MergedShape(d.kids[k], s.kids[k]), h')
    ensures Halfway(d, s, todo - {k}, h') && Has(s, h')
  {
    assert Maps(d.kids[k]) <= Maps(d) && d.o !in Maps(d.kids[k]);
    StillHas(s, h, h');
    assert Slot(d, s, todo - {k}, k) == MergedShape(d.kids[k], s.kids[k]);
    OthersKept(d, s, k, todo, h, h', Maps(d.kids[k]));
  }

  lemma LoopEnds(d: Shape, s: Shape, h: Store)
    requires Ready(d, s)
    ensures Halfway(d, s, {}, h) ==> Has(MergedShape(d, s), h)
    ensures Has(d, h) ==> Halfway(d, s, s.kids.Keys, h)
  {
    var r := MergedShape(d, s);
    if Halfway(d, s, {}, h) {
      forall k | k in r.kids ensures h[d.o][k] == Root(r.kids[k]) && Has(r.kids[k], h) {
        assert Slot(d, s, {}, k) == r.kids[k];
      }
    }
    if Has(d, h) {
      forall l | l in d.kids
        ensures h[d.o][l] == Root(Slot(d, s, s.kids.Keys, l)) && Has(Slot(d, s, s.kids.Keys, l), h)
      {
      }
    }
  }

  lemma KidsReady(d: Shape, s: Shape, k: string, todo: set<string>, h: Store)
    requires Ready(d, s) && Halfway(d, s, todo, h) && Has(s, h) && k in todo && k in d.kids
    ensures Maps(d.kids[k]) <= Maps(d) && Maps(s.kids[k]) <= Maps(s)
    ensures Has(d.kids[k], h) && Has(s.kids[k], h) && IsTree(d.kids[k])
    ensures h[d.o][k] == Root(d.kids[k])
  {
    assert Slot(d, s, todo, k) == d.kids[k];
  }

  /** The loop invariant: which map is which, and how far the merge has come. */
  ghost predicate Mid(dst: JsonMap, src: JsonMap, d: Shape, s: Shape, todo: set<string>, h: Store) {
    Ready(d, s) && d.o == dst && s.o == src && Halfway(d, s, todo, h) && Has(s, h)
  }

  /** At k both sides hold maps. */
  ghost predicate BothMaps(d: Shape, s: Shape, k: string)
    requires d.Node? && s.Node?
  {
    k in d.kids && k in s.kids && d.kids[k].Node? && s.kids[k].Node?
  }

  lemma KeyInTurn(dst: JsonMap, src: JsonMap, d: Shape, s: Shape, k: string, todo: set<string>, h: Store)
    requires Mid(dst, src, d, s, todo, h) && k in todo
    ensures dst in h && src in h && k in h[src] && h[src].Keys == s.kids.Keys && dst in Maps(d) && dst != src
    ensures BothMaps(d, s, k) <==> k in h[dst] && h[dst][k].Ref? && h[src][k].Ref?
    ensures h[src][k] == Root(s.kids[k]) && (k in d.kids ==> k in h[dst] && h[dst][k] == Root(d.kids[k]))
  {
    assert s.o in Maps(s);
    if k in d.kids { KidsReady(d, s, k, todo, h); }
  }

  method StoreKey(dst: JsonMap, src: JsonMap, k: string, ghost d: Shape, ghost s: Shape, ghost todo: set<string>,
                  ghost world: set<JsonMap>)
    requires Mid(dst, src, d, s, todo, Snapshot(world)) && k in todo && !BothMaps(d, s, k)
    modifies dst
    ensures Mid(dst, src, d, s, todo - {k}, Snapshot(world))
  {
    ghost var h := Snapshot(world);
    KeyInTurn(dst, src, d, s, k, todo, h);
    dst.entries := dst.entries[k := src.entries[k]];
    assert Snapshot(world) == h[dst := h[dst][k := h[src][k]]];
    StoreTurn(d, s, k, todo, h, Snapshot(world));
  }

  method MergeKey(dst: JsonMap, src: JsonMap, k: string, ghost d: Shape, ghost s: Shape, ghost todo: set<string>,
                  ghost world: set<JsonMap>)
    requires Mid(dst, src, d, s, todo, Snapshot(world)) && k in todo && BothMaps(d, s, k) && Maps(d) <= world
    modifies Maps(d.kids[k])
    ensures Mid(dst, src, d, s, todo - {k}, Snapshot(world))
    decreases s, 0
  {
    ghost var h := Snapshot(world);
    KeyInTurn(dst, src, d, s, k, todo, h);
    KidsReady(d, s, k, todo, h);
    DeepMerge(dst.entries[k].o, src.entries[k].o, d.kids[k], s.kids[k], world);
    MergeTurn(d, s, k, todo, h, Snapshot(world));
  }

  /** DeepMerge on a body that shares no map with the override ends with exactly the merged shape:
      the merged value, the override's own maps untouched though now shared. The depth of the
      override bounds the recursion. */
  method DeepMerge(dst: JsonMap, src: JsonMap, ghost d: Shape, ghost s: Shape, ghost world: set<JsonMap>)
    requires Ready(d, s) && d.o == dst && s.o == src && Maps(d) <= world
    requires Has(d, Snapshot(world)) && Has(s, Snapshot(world))
    modifies Maps(d)
    ensures Has(MergedShape(d, s), Snapshot(world)) && Has(s, Snapshot(world))
    decreases s, 1
  {
    LoopEnds(d, s, Snapshot(world));
    var todo := src.entries.Keys;
    while todo != {}
      invariant Mid(dst, src, d, s, todo, Snapshot(world))
      decreases todo
    {
      var k :| k in todo;
      KeyInTurn(dst, src, d, s, k, todo, Snapshot(world));
      if k in dst.entries && src.entries[k].Ref? && dst.entries[k].Ref? {
        MergeKey(dst, src, k, d, s, todo, world);
      } else {
        StoreKey(dst, src, k, d, s, todo, world);
      }
      todo := todo - {k};
    }
    LoopEnds(d, s, Snapshot(world));
  }

  lemma EmptyOverride(d: Shape, s: Shape)
    requires d.Node? && s.Node? && s.kids.Keys == {}
    ensures MergedShape(d, s) == d
  {
    assert MergedShape(d, s).kids == d.kids;
  }

  /** ApplyOverride, as Forward calls it on a freshly decoded body: the body, as a value, ends up
      merged with the override, and the override keeps its value. */
  method ApplyOverride(body: JsonMap, override: JsonMap, ghost d: Shape, ghost s: Shape, ghost world: set<JsonMap>)
    returns (result: JsonMap)
    requires Ready(d, s) && d.o == body && s.o == override && Maps(d) <= world && Proper(d) && Proper(s)
    requires Has(d, Snapshot(world)) && Has(s, Snapshot(world))
    modifies Maps(d)
    ensures result == body
    ensures Has(MergedShape(d, s), Snapshot(world)) && Has(s, Snapshot(world))
    ensures ValueOf(MergedShape(d, s)) == Merged(ValueOf(d).fields, ValueOf(s).fields)
  {
    MergedValue(d, s);
    result := body;
    if |override.entries| == 0 {
      EmptyOverride(d, s);
      return;
    }
    DeepMerge(body, override, d, s, world);
  }
}
