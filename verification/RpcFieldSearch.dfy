/** The breadth-first search for a named field in an arbitrary, possibly cyclic, RPC reply. */
module RpcFieldSearch {
  import opened Domain
  import opened PaymentRails

  /** A field value: null or undefined, a scalar, or a reference to an object of the reply. */
  datatype Value = Nil | Scalar(text: string) | Object(ref: nat)

  /** Objects by reference; each lists its entries in Object.entries order. */
  type Graph = map<nat, seq<(string, Value)>>

  /** Every reference leads to an object of the graph. */
  predicate IsClosed(g: Graph) {
    forall o | o in g :: forall i | 0 <= i < |g[o]| :: g[o][i].1.Object? ==> g[o][i].1.ref in g
  }

  function FieldKey(name: string): string {
    if name == "" then ""
    else
      var c := Lower(name[0]);
      (if 'a' <= c <= 'z' || '0' <= c <= '9' then [c] else "") + FieldKey(name[1..])
  }

  predicate IsWanted(entry: (string, Value), wanted: set<string>) {
    FieldKey(entry.0) in wanted && !entry.1.Nil?
  }

  /** The first wanted entry of one object. */
  function FirstWanted(entries: seq<(string, Value)>, wanted: set<string>): Value {
    if |entries| == 0 then Nil
    else if IsWanted(entries[0], wanted) then entries[0].1
    else FirstWanted(entries[1..], wanted)
  }

  function Children(entries: seq<(string, Value)>): set<nat> {
    set i | 0 <= i < |entries| && entries[i].1.Object? :: entries[i].1.ref
  }

  ghost function ChildrenOf(g: Graph, near: set<nat>): set<nat>
    requires near <= g.Keys
  {
    set o, p | o in near && p in Children(g[o]) :: p
  }

  /** Objects reachable from root in at most depth steps. */
  ghost function Within(g: Graph, root: nat, depth: nat): set<nat>
    requires IsClosed(g) && root in g
    ensures Within(g, root, depth) <= g.Keys
  {
    if depth == 0 then {root}
    else
      ChildrenAreObjects(g, Within(g, root, depth - 1));
      Within(g, root, depth - 1) + ChildrenOf(g, Within(g, root, depth - 1))
  }

  lemma ChildrenAreObjects(g: Graph, near: set<nat>)
    requires IsClosed(g) && near <= g.Keys
    ensures ChildrenOf(g, near) <= g.Keys
  {
  }

  /** Objects strictly closer than depth. */
  ghost function Closer(g: Graph, root: nat, depth: nat): set<nat>
    requires IsClosed(g) && root in g
  {
    if depth == 0 then {} else Within(g, root, depth - 1)
  }

  ghost predicate HasNone(g: Graph, objects: set<nat>, wanted: set<string>)
    requires objects <= g.Keys
  {
    forall o | o in objects :: FirstWanted(g[o], wanted).Nil?
  }

  function Refs(queue: seq<(nat, nat)>, depth: nat): set<nat> {
    set i | 0 <= i < |queue| && queue[i].1 == depth :: queue[i].0
  }

  method ScanEntries(entries: seq<(string, Value)>, wanted: set<string>) returns (found: Value)
    ensures found == FirstWanted(entries, wanted)
  {
    for i := 0 to |entries|
      invariant FirstWanted(entries, wanted) == FirstWanted(entries[i..], wanted)
    {
      if IsWanted(entries[i], wanted) {
        return entries[i].1;
      }
    }
    return Nil;
  }

  method PushChildren(queue: seq<(nat, nat)>, entries: seq<(string, Value)>, depth: nat) returns (longer: seq<(nat, nat)>)
    ensures |queue| <= |longer| && longer[..|queue|] == queue
    ensures forall i | |queue| <= i < |longer| :: longer[i].1 == depth && longer[i].0 in Children(entries)
    ensures forall c | c in Children(entries) :: exists i :: |queue| <= i < |longer| && longer[i] == (c, depth)
  {
    longer := queue;
    for k := 0 to |entries|
      invariant |queue| <= |longer| && longer[..|queue|] == queue
      invariant forall i | |queue| <= i < |longer| :: longer[i].1 == depth && longer[i].0 in Children(entries)
      invariant forall j | 0 <= j < k && entries[j].1.Object? ::
                  exists i :: |queue| <= i < |longer| && longer[i] == (entries[j].1.ref, depth)
    {
      if entries[k].1.Object? {
        ghost var before := longer;
        longer := longer + [(entries[k].1.ref, depth)];
        assert longer[|before|] == (entries[k].1.ref, depth);
        assert forall i | 0 <= i < |before| :: longer[i] == before[i];
      }
    }
  }

  lemma {:induction false} ClosedSetHoldsEverything(g: Graph, root: nat, seen: set<nat>, depth: nat, more: nat)
    requires IsClosed(g) && root in g && seen <= g.Keys
    requires Within(g, root, depth) <= seen
    requires forall o | o in seen :: Children(g[o]) <= seen
    ensures Within(g, root, depth + more) <= seen
  {
    if more > 0 { ClosedSetHoldsEverything(g, root, seen, depth, more - 1); }
  }

  /** The queue holds objects at depths d and d+1, in depth order, each reachable within its depth. */
  ghost predicate Ordered(g: Graph, root: nat, maxDepth: nat, queue: seq<(nat, nat)>, d: nat)
    requires IsClosed(g) && root in g
  {
    && (forall i | 0 <= i < |queue| :: d <= queue[i].1 <= d + 1 && queue[i].1 <= maxDepth)
    && (forall i | 0 <= i < |queue| :: queue[i].0 in Within(g, root, queue[i].1))
    && (forall i, j | 0 <= i < j < |queue| :: queue[i].1 <= queue[j].1)
  }

  /** Everything closer than d is seen, everything at d is seen or queued, and so are the children of seen objects. */
  ghost predicate Covered(g: Graph, root: nat, maxDepth: nat, queue: seq<(nat, nat)>, seen: set<nat>, d: nat)
    requires IsClosed(g) && root in g && seen <= g.Keys
  {
    && Closer(g, root, d) <= seen
    && Within(g, root, d) <= seen + Refs(queue, d)
    && (d < maxDepth ==> forall o | o in seen :: Children(g[o]) <= seen + Refs(queue, d) + Refs(queue, d + 1))
  }

  /** The search invariant at depth d; seen objects have no wanted field. */
  ghost predicate Frontier(g: Graph, root: nat, wanted: set<string>, maxDepth: nat,
                           queue: seq<(nat, nat)>, seen: set<nat>, d: nat)
    requires IsClosed(g) && root in g
  {
    && d <= maxDepth && seen <= g.Keys && HasNone(g, seen, wanted)
    && Ordered(g, root, maxDepth, queue, d)
    && Covered(g, root, maxDepth, queue, seen, d)
  }

  lemma Advance(g: Graph, root: nat, wanted: set<string>, maxDepth: nat, queue: seq<(nat, nat)>, seen: set<nat>, d: nat)
    requires IsClosed(g) && root in g && Frontier(g, root, wanted, maxDepth, queue, seen, d)
    requires |queue| > 0 && queue[0].1 == d + 1
    ensures Frontier(g, root, wanted, maxDepth, queue, seen, d + 1)
  {
    assert Refs(queue, d) == {};
  }

  lemma Skip(g: Graph, root: nat, wanted: set<string>, maxDepth: nat, queue: seq<(nat, nat)>, seen: set<nat>, d: nat)
    requires IsClosed(g) && root in g && Frontier(g, root, wanted, maxDepth, queue, seen, d)
    requires |queue| > 0 && queue[0].0 in seen
    ensures Frontier(g, root, wanted, maxDepth, queue[1..], seen, d)
  {
    RefsOfTail(queue);
    forall o | o in seen && d < maxDepth
      ensures Children(g[o]) <= seen + Refs(queue[1..], d) + Refs(queue[1..], d + 1)
    {
      assert Children(g[o]) <= seen + Refs(queue, d) + Refs(queue, d + 1);
    }
  }

  /** longer is the queue without its head, followed by the head's children one level down when there is room. */
  ghost predicate IsExpansion(g: Graph, maxDepth: nat, queue: seq<(nat, nat)>, d: nat, longer: seq<(nat, nat)>)
    requires |queue| > 0 && queue[0].0 in g
  {
    && |queue| - 1 <= |longer| && longer[..|queue| - 1] == queue[1..]
    && (forall i | |queue| - 1 <= i < |longer| ::
          d < maxDepth && longer[i].1 == d + 1 && longer[i].0 in Children(g[queue[0].0]))
    && (d < maxDepth ==> Children(g[queue[0].0]) <= Refs(longer, d + 1))
  }

  lemma ExpandOrder(g: Graph, root: nat, maxDepth: nat, queue: seq<(nat, nat)>, d: nat, longer: seq<(nat, nat)>)
    requires IsClosed(g) && root in g && Ordered(g, root, maxDepth, queue, d)
    requires |queue| > 0 && queue[0].1 == d && IsExpansion(g, maxDepth, queue, d, longer)
    ensures Ordered(g, root, maxDepth, longer, d)
  {
    assert forall i | 0 <= i < |queue| - 1 :: longer[i] == queue[1..][i] == queue[i + 1];
    assert queue[0].0 in Within(g, root, d);
    forall i | 0 <= i < |longer|
      ensures d <= longer[i].1 <= d + 1 && longer[i].1 <= maxDepth && longer[i].0 in Within(g, root, longer[i].1)
    {
      if i >= |queue| - 1 {
        assert longer[i].0 in ChildrenOf(g, Within(g, root, d));
      }
    }
  }

  lemma ExpandCover(g: Graph, root: nat, maxDepth: nat, queue: seq<(nat, nat)>, seen: set<nat>, d: nat,
                    longer: seq<(nat, nat)>)
    requires IsClosed(g) && root in g && seen <= g.Keys && Covered(g, root, maxDepth, queue, seen, d)
    requires |queue| > 0 && queue[0].0 in g && queue[0].1 == d && IsExpansion(g, maxDepth, queue, d, longer)
    ensures Covered(g, root, maxDepth, longer, seen + {queue[0].0}, d)
  {
    RefsOfTail(queue);
    RefsOfPrefix(queue[1..], longer);
    var node := queue[0].0;
    assert Refs(queue, d) <= Refs(longer, d) + {node};
    if d < maxDepth {
      assert Refs(queue, d + 1) <= Refs(longer, d + 1);
      forall o | o in seen ensures Children(g[o]) <= seen + {node} + Refs(longer, d) + Refs(longer, d + 1) {
        assert Children(g[o]) <= seen + Refs(queue, d) + Refs(queue, d + 1);
      }
    }
  }

  lemma Expand(g: Graph, root: nat, wanted: set<string>, maxDepth: nat, queue: seq<(nat, nat)>, seen: set<nat>, d: nat,
               longer: seq<(nat, nat)>)
    requires IsClosed(g) && root in g && Frontier(g, root, wanted, maxDepth, queue, seen, d)
    requires |queue| > 0 && queue[0].1 == d && FirstWanted(g[queue[0].0], wanted).Nil?
    requires IsExpansion(g, maxDepth, queue, d, longer)
    ensures Frontier(g, root, wanted, maxDepth, longer, seen + {queue[0].0}, d)
  {
    ExpandOrder(g, root, maxDepth, queue, d, longer);
    ExpandCover(g, root, maxDepth, queue, seen, d, longer);
  }

  lemma PushIsExpansion(g: Graph, maxDepth: nat, queue: seq<(nat, nat)>, d: nat, longer: seq<(nat, nat)>)
    requires |queue| > 0 && queue[0].0 in g && d < maxDepth
    requires |queue| - 1 <= |longer| && longer[..|queue| - 1] == queue[1..]
    requires forall i | |queue| - 1 <= i < |longer| :: longer[i].1 == d + 1 && longer[i].0 in Children(g[queue[0].0])
    requires forall c | c in Children(g[queue[0].0]) :: exists i :: |queue| - 1 <= i < |longer| && longer[i] == (c, d + 1)
    ensures IsExpansion(g, maxDepth, queue, d, longer)
  {
    forall c | c in Children(g[queue[0].0]) ensures c in Refs(longer, d + 1) {
      var i :| |queue| - 1 <= i < |longer| && longer[i] == (c, d + 1);
      assert longer[i].1 == d + 1;
    }
  }

  /** The queue after its head has been visited without a find. */
  method Dequeue(g: Graph, maxDepth: nat, queue: seq<(nat, nat)>) returns (longer: seq<(nat, nat)>)
    requires |queue| > 0 && queue[0].0 in g && queue[0].1 <= maxDepth
    ensures IsExpansion(g, maxDepth, queue, queue[0].1, longer)
  {
    longer := queue[1..];
    if queue[0].1 < maxDepth {
      longer := PushChildren(longer, g[queue[0].0], queue[0].1 + 1);
      PushIsExpansion(g, maxDepth, queue, queue[0].1, longer);
    }
  }

  lemma Initially(g: Graph, root: nat, wanted: set<string>, maxDepth: nat)
    requires IsClosed(g) && root in g
    ensures Frontier(g, root, wanted, maxDepth, [(root, 0)], {}, 0)
  {
    var queue := [(root, 0)];
    assert queue[0].1 == 0 && root in Refs(queue, 0);
  }

  /** What the head of the queue may be; nothing closer than it has a wanted field. */
  lemma Head(g: Graph, root: nat, wanted: set<string>, maxDepth: nat, queue: seq<(nat, nat)>, seen: set<nat>, d: nat)
    requires IsClosed(g) && root in g && Frontier(g, root, wanted, maxDepth, queue, seen, d) && |queue| > 0
    ensures seen <= g.Keys && d <= maxDepth && queue[0].0 in Within(g, root, queue[0].1)
    ensures d <= queue[0].1 <= d + 1 && queue[0].1 <= maxDepth
    ensures queue[0].1 == d ==> HasNone(g, Closer(g, root, d), wanted)
  {
  }

  lemma Exhausted(g: Graph, root: nat, wanted: set<string>, maxDepth: nat, seen: set<nat>, d: nat)
    requires IsClosed(g) && root in g && Frontier(g, root, wanted, maxDepth, [], seen, d)
    ensures HasNone(g, Within(g, root, maxDepth), wanted)
  {
    EmptyQueueHoldsEverything(g, root, maxDepth, seen, d);
    FewerHaveNone(g, Within(g, root, maxDepth), seen, wanted);
  }

  lemma FewerHaveNone(g: Graph, few: set<nat>, many: set<nat>, wanted: set<string>)
    requires many <= g.Keys && few <= many && HasNone(g, many, wanted)
    ensures HasNone(g, few, wanted)
  {
  }

  lemma EmptyQueueHoldsEverything(g: Graph, root: nat, maxDepth: nat, seen: set<nat>, d: nat)
    requires IsClosed(g) && root in g && seen <= g.Keys && d <= maxDepth && Covered(g, root, maxDepth, [], seen, d)
    ensures Within(g, root, maxDepth) <= seen
  {
    EmptyQueueIsClosed(g, root, maxDepth, seen, d);
    if d < maxDepth { ClosedSetHoldsEverything(g, root, seen, d, maxDepth - d); }
  }

  lemma EmptyQueueIsClosed(g: Graph, root: nat, maxDepth: nat, seen: set<nat>, d: nat)
    requires IsClosed(g) && root in g && seen <= g.Keys && Covered(g, root, maxDepth, [], seen, d)
    ensures Within(g, root, d) <= seen && (d < maxDepth ==> forall o | o in seen :: Children(g[o]) <= seen)
  {
    assert Refs([], d) == {} == Refs([], d + 1);
  }

  /**
   * Terminates on every graph, cyclic ones included. A found value is the first wanted field of an object at some
   * depth within the limit, and no object closer to the root has a wanted field; Nil means none within the limit has, or the reply is no object.
   */
  method DeepRpcField(g: Graph, value: Value, wanted: set<string>, maxDepth: nat) returns (found: Value, ghost at: (nat, nat))
    requires IsClosed(g) && (value.Object? ==> value.ref in g)
    ensures !value.Object? ==> found.Nil?
    ensures !found.Nil? ==>
              value.Object? && at.1 <= maxDepth && at.0 in Within(g, value.ref, at.1) && found == FirstWanted(g[at.0], wanted)
              && HasNone(g, Closer(g, value.ref, at.1), wanted)
    ensures value.Object? && found.Nil? ==> HasNone(g, Within(g, value.ref, maxDepth), wanted)
  {
    at := (0, 0);
    if !value.Object? {
      return Nil, at;
    }
    var root := value.ref;
    var queue := [(root, 0)];
    var seen: set<nat> := {};
    ghost var d: nat := 0;
    Initially(g, root, wanted, maxDepth);
    while |queue| > 0
      invariant Frontier(g, root, wanted, maxDepth, queue, seen, d)
      decreases g.Keys - seen, |queue|
    {
      var node, depth := queue[0].0, queue[0].1;
      Head(g, root, wanted, maxDepth, queue, seen, d);
      if depth == d + 1 {
        Advance(g, root, wanted, maxDepth, queue, seen, d);
        d := d + 1;
        Head(g, root, wanted, maxDepth, queue, seen, d);
      }
      if node in seen {
        Skip(g, root, wanted, maxDepth, queue, seen, d);
        queue := queue[1..];
      } else {
        found := ScanEntries(g[node], wanted);
        if !found.Nil? {
          at := (node, depth);
          return;
        }
        var longer := Dequeue(g, maxDepth, queue);
        Expand(g, root, wanted, maxDepth, queue, seen, d, longer);
        queue, seen := longer, seen + {node};
      }
    }
    found := Nil;
    Exhausted(g, root, wanted, maxDepth, seen, d);
  }

  lemma RefsOfTail(queue: seq<(nat, nat)>)
    requires |queue| > 0
    ensures forall k: nat :: Refs(queue, k) <= Refs(queue[1..], k) + (if k == queue[0].1 then {queue[0].0} else {})
  {
    forall k: nat, r | r in Refs(queue, k)
      ensures r in Refs(queue[1..], k) + (if k == queue[0].1 then {queue[0].0} else {})
    {
      var i :| 0 <= i < |queue| && queue[i].1 == k && queue[i].0 == r;
      if i > 0 { assert queue[1..][i - 1] == queue[i]; }
    }
  }

  lemma RefsOfPrefix(prefix: seq<(nat, nat)>, queue: seq<(nat, nat)>)
    requires |prefix| <= |queue| && queue[..|prefix|] == prefix
    ensures forall k: nat :: Refs(prefix, k) <= Refs(queue, k)
  {
    assert forall i | 0 <= i < |prefix| :: queue[i] == prefix[i];
  }
}
