/** The static problem definition: nodes, their kinds and demands (struct Nodo). */
module Instance {

  /** Node kind; the instance file encodes it as 0 (depot), 1 (linehaul) and 2 (backhaul). */
  datatype NodeKind = Depot | Linehaul | Backhaul

  /** A node of the instance. Its coordinates only feed the distance, which the
      model takes as a parameter, so they are not part of the value. */
  datatype Node = Node(id: int, kind: NodeKind, demand: int)

  /** The distance between two node ids. The only fact relied upon is that it is
      never negative. */
  type Distance = (int, int) -> nat

  /** The ids of a sequence of nodes, in order. */
  function Ids(ns: seq<Node>): seq<int> {
    seq(|ns|, k requires 0 <= k < |ns| => ns[k].id)
  }

  /** The set of ids occurring in a sequence of nodes. */
  function IdSet(ns: seq<Node>): set<int> {
    set x | x in ns :: x.id
  }

  /** No two positions of the sequence carry the same id. */
  predicate UniqueIds(ns: seq<Node>) {
    forall i, j | 0 <= i < j < |ns| :: ns[i].id != ns[j].id
  }

  /** The nodes of kind k, in input order: how the builder collects the linehaul
      and the backhaul customers before shuffling them. */
  function OfKind(ns: seq<Node>, k: NodeKind): (r: seq<Node>)
    ensures |r| <= |ns|
    ensures forall x :: x in r <==> x in ns && x.kind == k
  {
    if |ns| == 0 then []
    else (if ns[0].kind == k then [ns[0]] else []) + OfKind(ns[1..], k)
  }

  /** The filter keeps every node of kind k as often as the input holds it,
      and no node of another kind. */
  lemma {:induction false} OfKindCounts(ns: seq<Node>, k: NodeKind)
    ensures forall x :: multiset(OfKind(ns, k))[x] == if x.kind == k then multiset(ns)[x] else 0
  {
    if |ns| > 0 {
      OfKindCounts(ns[1..], k);
      assert ns == [ns[0]] + ns[1..];
    }
  }

  /** The id-to-node lookup, built by inserting the nodes in order, so that a
      later node overwrites an earlier one with the same id. */
  function NodeMap(ns: seq<Node>): (m: map<int, Node>)
    ensures m.Keys == IdSet(ns)
    ensures forall id | id in m :: m[id] in ns && m[id].id == id
  {
    if |ns| == 0 then map[]
    else
      var prefix := ns[..|ns| - 1];
      var x := ns[|ns| - 1];
      assert ns == prefix + [x];
      NodeMap(prefix)[x.id := x]
  }

  /** Every id of the instance can be looked up. */
  lemma NodeMapHas(ns: seq<Node>, id: int)
    requires id in IdSet(ns)
    ensures id in NodeMap(ns)
  {
  }

  /** When ids are unique, the lookup returns exactly the node that carries the id. */
  lemma NodeMapFinds(ns: seq<Node>, x: Node)
    requires UniqueIds(ns) && x in ns
    ensures x.id in NodeMap(ns) && NodeMap(ns)[x.id] == x
  {
    var m := NodeMap(ns);
    assert x.id in IdSet(ns);
    var y := m[x.id];
    var i :| 0 <= i < |ns| && ns[i] == x;
    var j :| 0 <= j < |ns| && ns[j] == y;
    assert ns[i].id == ns[j].id;
    if i < j {
      assert false;
    } else if j < i {
      assert false;
    }
  }
}
