/** Finite directed graphs: paths, reachability, cycles. */
module Routes {

  type Graph<!T(==)> = map<T, set<T>>

  /** Every edge leads to a vertex of the graph. */
  ghost predicate Closed<T>(g: Graph<T>) {
    forall a, b :: a in g && b in g[a] ==> b in g
  }

  /** A non-empty walk along edges. */
  ghost predicate IsPath<T>(g: Graph<T>, older p: seq<T>) {
    && p != []
    && (forall i :: 0 <= i < |p| ==> p[i] in g)
    && (forall i :: 0 < i < |p| ==> p[i] in g[p[i - 1]])
  }

  function Last<T>(p: seq<T>): T
    requires p != []
  {
    p[|p| - 1]
  }

  ghost predicate Reaches<T>(g: Graph<T>, a: T, b: T) {
    exists p: seq<T> :: IsPath(g, p) && p[0] == a && Last(p) == b
  }

  /** No path returns to where it started. */
  ghost predicate Acyclic<T>(g: Graph<T>) {
    forall p: seq<T> :: IsPath(g, p) && 1 < |p| ==> p[0] != Last(p)
  }

  ghost function Reachable<T>(g: Graph<T>, a: T): set<T> {
    set b | b in g && Reaches(g, a, b)
  }

  /** The vertices where some of the given paths end. */
  ghost function Ends<T>(paths: set<seq<T>>): set<T> {
    set p | p in paths && p != [] :: Last(p)
  }

  /** Those of the given paths that end at `b`. */
  ghost function PathsTo<T>(paths: set<seq<T>>, b: T): set<seq<T>> {
    set p | p in paths && p != [] && Last(p) == b
  }

  lemma PathsJoin<T>(g: Graph<T>, p: seq<T>, q: seq<T>)
    requires IsPath(g, p) && IsPath(g, q) && q[0] in g[Last(p)]
    ensures IsPath(g, p + q) && (p + q)[0] == p[0] && Last(p + q) == Last(q)
  {
    var r := p + q;
    forall i | 0 < i < |r|
      ensures r[i] in g[r[i - 1]]
    {
      if |p| < i {
        assert r[i] == q[i - |p|] && r[i - 1] == q[i - |p| - 1];
      }
    }
  }

  lemma SubPath<T>(g: Graph<T>, p: seq<T>, i: nat, j: nat)
    requires IsPath(g, p) && i < j <= |p|
    ensures IsPath(g, p[i..j])
  {
  }

  /** Exactly the paths that begin with `path`. */
  ghost predicate Extensions<T>(g: Graph<T>, path: seq<T>, paths: set<seq<T>>) {
    && (forall p: seq<T> :: p in paths ==> IsPath(g, p) && path <= p)
    && (forall p: seq<T> :: IsPath(g, p) && path <= p ==> p in paths)
  }

  /** Exactly the longer paths that begin with `path` and go on to `next`. */
  ghost predicate ExtensionsVia<T>(g: Graph<T>, path: seq<T>, next: set<T>, paths: set<seq<T>>) {
    && (forall p: seq<T> :: p in paths ==> IsPath(g, p) && path < p && p[|path|] in next)
    && (forall p: seq<T> :: IsPath(g, p) && path < p && p[|path|] in next ==> p in paths)
  }

  lemma NoEnds<T>()
    ensures Ends<T>({}) == {}
  {
  }

  lemma EndsOne<T>(path: seq<T>)
    requires path != []
    ensures Ends({path}) == {Last(path)}
  {
  }

  lemma EndsReached<T>(g: Graph<T>, a: T, paths: set<seq<T>>)
    requires Extensions(g, [a], paths)
    ensures forall p: seq<T> :: p in paths <==> IsPath(g, p) && p[0] == a
    ensures forall b :: b in Ends(paths) <==> Reaches(g, a, b)
  {
    forall p: seq<T> | p != []
      ensures [a] <= p <==> p[0] == a
    {
    }
  }

  lemma ViaNone<T>(g: Graph<T>, path: seq<T>)
    ensures ExtensionsVia(g, path, {}, {})
  {
  }

  lemma ViaOneMore<T>(g: Graph<T>, path: seq<T>, next: set<T>, paths: set<seq<T>>, b: T, more: set<seq<T>>)
    requires ExtensionsVia(g, path, next, paths) && Extensions(g, path + [b], more) && b !in next
    ensures ExtensionsVia(g, path, next + {b}, paths + more) && paths !! more
    ensures ExtensionsVia(g, path, {b}, more)
  {
    forall p: seq<T> | path + [b] <= p
      ensures path < p && p[|path|] == b
    {
      assert p[..|path|] == (path + [b])[..|path|] == path;
    }
    forall p: seq<T> | path < p && p[|path|] == b
      ensures path + [b] <= p
    {
      assert p[..|path| + 1] == path + [b];
    }
  }

  lemma ViaAll<T>(g: Graph<T>, path: seq<T>, paths: set<seq<T>>)
    requires IsPath(g, path) && ExtensionsVia(g, path, g[Last(path)], paths)
    ensures Extensions(g, path, {path} + paths) && path !in paths
  {
    forall p: seq<T> | IsPath(g, p) && path <= p && p != path
      ensures p in paths
    {
      assert p[|path|] in g[p[|path| - 1]];
    }
  }

  /** A longer path does not end where the shorter one does. */
  lemma NoReturn<T>(g: Graph<T>, p: seq<T>, q: seq<T>)
    requires Acyclic(g) && IsPath(g, p) && IsPath(g, q) && p < q
    ensures Last(q) != Last(p)
  {
    var cycle := q[|p| - 1..];
    SubPath(g, q, |p| - 1, |q|);
    assert cycle[0] == q[|p| - 1] == p[|p| - 1];
    assert Last(cycle) == Last(q);
  }

  lemma PathsToJoin<T>(paths: set<seq<T>>, more: set<seq<T>>, b: T)
    requires paths !! more
    ensures |PathsTo(paths + more, b)| == |PathsTo(paths, b)| + |PathsTo(more, b)|
  {
    assert PathsTo(paths + more, b) == PathsTo(paths, b) + PathsTo(more, b);
  }

  lemma EndsJoin<T>(paths: set<seq<T>>, more: set<seq<T>>)
    ensures Ends(paths + more) == Ends(paths) + Ends(more)
  {
  }

  lemma EndsBeyond<T>(g: Graph<T>, path: seq<T>, next: set<T>, paths: set<seq<T>>)
    requires Acyclic(g) && IsPath(g, path) && ExtensionsVia(g, path, next, paths)
    ensures Last(path) !in Ends(paths)
  {
    forall p | p in paths
      ensures Last(p) != Last(path)
    {
      NoReturn(g, path, p);
    }
  }

  lemma ProperSubsetIsSmaller<T>(a: set<T>, b: set<T>)
    requires a < b
    ensures |a| < |b|
  {
    assert b == a + (b - a);
    assert |b| == |a| + |b - a|;
    var x :| x in b - a;
    assert |b - a| == |b - a - {x}| + 1;
  }

  /** Without cycles fewer vertices can be reached from every vertex further
      along. */
  lemma ReachableShrinks<T>(g: Graph<T>, a: T, b: T)
    requires Closed(g) && Acyclic(g) && a in g && b in g[a]
    ensures |Reachable(g, b)| < |Reachable(g, a)|
  {
    assert IsPath(g, [a]);
    forall c | c in Reachable(g, b)
      ensures c in Reachable(g, a) && c != a
    {
      var q: seq<T> :| IsPath(g, q) && q[0] == b && Last(q) == c;
      PathsJoin(g, [a], q);
    }
    assert a in Reachable(g, a) by {
      assert Last([a]) == a;
    }
    ProperSubsetIsSmaller(Reachable(g, b), Reachable(g, a));
  }

  /** A rank that falls along every edge. */
  ghost predicate Ranked<T>(g: Graph<T>, rank: map<T, nat>) {
    forall a, b :: a in g && b in g[a] ==> a in rank && b in rank && rank[b] < rank[a]
  }

  lemma {:induction false} RankFallsAlong<T>(g: Graph<T>, rank: map<T, nat>, p: seq<T>)
    requires Ranked(g, rank) && IsPath(g, p) && 1 < |p|
    ensures p[0] in rank && Last(p) in rank && rank[Last(p)] < rank[p[0]]
    decreases |p|
  {
    var a, b := p[0], p[1];
    assert a in g && b in g[a];
    assert a in rank && b in rank && rank[b] < rank[a];
    if 2 < |p| {
      SubPath(g, p, 1, |p|);
      var rest := p[1..];
      RankFallsAlong(g, rank, rest);
      assert Last(rest) == Last(p) && rest[0] == p[1];
    }
  }

  /** A graph has no cycles exactly when its vertices can be ranked. */
  lemma AcyclicIffRanked<T>(g: Graph<T>)
    requires Closed(g)
    ensures Acyclic(g) <==> exists rank: map<T, nat> :: Ranked(g, rank)
  {
    if Acyclic(g) {
      var rank: map<T, nat> := map a | a in g :: |Reachable(g, a)|;
      forall a, b | a in g && b in g[a]
        ensures rank[b] < rank[a]
      {
        ReachableShrinks(g, a, b);
      }
      assert Ranked(g, rank);
    }
    if rank: map<T, nat> :| Ranked(g, rank) {
      forall p: seq<T> | IsPath(g, p) && 1 < |p|
        ensures p[0] != Last(p)
      {
        RankFallsAlong(g, rank, p);
      }
    }
  }

  lemma ReachesTransitive<T>(g: Graph<T>, a: T, b: T, c: T)
    requires Reaches(g, a, b) && Reaches(g, b, c)
    ensures Reaches(g, a, c)
  {
    var p: seq<T> :| IsPath(g, p) && p[0] == a && Last(p) == b;
    var q: seq<T> :| IsPath(g, q) && q[0] == b && Last(q) == c;
    if 1 < |q| {
      SubPath(g, q, 1, |q|);
      var rest := q[1..];
      assert rest[0] in g[b] && Last(rest) == c;
      PathsJoin(g, p, rest);
    }
  }

  /** The graph with one more edge. */
  function WithRoute<T(==)>(g: Graph<T>, a: T, b: T): Graph<T>
    requires a in g
  {
    g[a := g[a] + {b}]
  }

  /** A path that uses a new edge leads to where the edge begins and on from
      where it ends. */
  lemma {:induction false} NewRouteUsed<T>(g: Graph<T>, a: T, b: T, p: seq<T>)
    requires a in g && b in g && !Reaches(g, b, a)
    requires IsPath(WithRoute(g, a, b), p) && !IsPath(g, p)
    ensures Reaches(g, p[0], a) && Reaches(g, b, Last(p))
    decreases |p|
  {
    var g' := WithRoute(g, a, b);
    assert |p| != 1;
    var q, z := p[..|p| - 1], Last(p);
    SubPath(g', p, 0, |p| - 1);
    assert z in g'[Last(q)];
    assert IsPath(g, [z]) && Last([z]) == z && p == q + [z];
    if IsPath(g, q) {
      if z in g[Last(q)] {
        PathsJoin(g, q, [z]);
      }
    } else {
      NewRouteUsed(g, a, b, q);
      assert z in g[Last(q)];
      var r: seq<T> :| IsPath(g, r) && r[0] == b && Last(r) == Last(q);
      PathsJoin(g, r, [z]);
    }
  }

  /** A new route closes a cycle exactly when it leads back. */
  lemma NewRouteKeepsAcyclic<T>(g: Graph<T>, a: T, b: T)
    requires Acyclic(g) && a in g && b in g
    ensures Acyclic(WithRoute(g, a, b)) <==> !Reaches(g, b, a)
  {
    var g' := WithRoute(g, a, b);
    if p: seq<T> :| IsPath(g, p) && p[0] == b && Last(p) == a {
      assert IsPath(g', p) && IsPath(g', [a]);
      PathsJoin(g', [a], p);
    } else {
      forall p: seq<T> | IsPath(g', p) && 1 < |p|
        ensures p[0] != Last(p)
      {
        if !IsPath(g, p) && p[0] == Last(p) {
          NewRouteUsed(g, a, b, p);
          ReachesTransitive(g, b, Last(p), a);
        }
      }
    }
  }
}

/** Exposed fields, the events they pass on to each other, and the cascade one
    event sets off. */
module EventCascade {
  import opened Routes

  class Node {
    var modified: bool
  }

  class Field<V> {
    const node: Node
    var value: V
    var listeners: set<Field<V>>
    var lastTime: real
    /** How many events the field has processed. */
    ghost var processed: nat

    constructor (node: Node, value: V)
      ensures this.node == node && this.value == value && listeners == {} && lastTime == 0.0 && processed == 0
    {
      this.node := node;
      this.value := value;
      listeners := {};
      lastTime := 0.0;
      processed := 0;
    }

    method Add(listener: Field<V>) returns (added: bool)
      modifies this`listeners
      ensures added == (listener !in old(listeners))
      ensures listeners == old(listeners) + {listener}
    {
      added := listener !in listeners;
      listeners := listeners + {listener};
    }

    method Remove(listener: Field<V>) returns (removed: bool)
      modifies this`listeners
      ensures removed == (listener in old(listeners))
      ensures listeners == old(listeners) - {listener}
    {
      removed := listener in listeners;
      listeners := listeners - {listener};
    }

    /** Takes the value of an event. */
    method Store(value: V, ghost graph: Graph<Field<V>>)
      requires this in graph
      modifies this`value, this`processed, node`modified
      ensures var s := old(StateOf(graph));
        && this in s.processed
        && StateOf(graph) == State(s.values[this := value], s.times, s.processed[this := s.processed[this] + 1],
                                   s.modified[node := true])
      ensures this.value == value
    {
      this.value := value;
      processed := processed + 1;
      node.modified := true;
      assert ValuesOf(graph) == old(ValuesOf(graph))[this := value];
      assert ProcessedOf(graph) == old(ProcessedOf(graph))[this := processed];
      assert ModifiedOf(graph) == old(ModifiedOf(graph))[node := true];
    }

    /** Notes the time of the last event emitted. */
    method Stamp(timestamp: real, ghost graph: Graph<Field<V>>)
      requires this in graph
      modifies this`lastTime
      ensures var s := old(StateOf(graph));
        StateOf(graph) == s.(times := s.times[this := timestamp])
    {
      lastTime := timestamp;
      assert TimesOf(graph) == old(TimesOf(graph))[this := timestamp];
    }

    /** Passes the field's value on to all listeners, in any order. */
    method EmitEvent(timestamp: real, ghost graph: Graph<Field<V>>, ghost path: seq<Field<V>>)
      returns (ghost paths: set<seq<Field<V>>>)
      requires Wired(graph) && Acyclic(graph)
      requires this in graph && path != [] && IsPath(graph, path) && Last(path) == this
      modifies graph.Keys`value, graph.Keys`lastTime, graph.Keys`processed, NodesOf(graph.Keys)`modified
      ensures ExtensionsVia(graph, path, listeners, paths)
      ensures StateOf(graph) == old(StateOf(graph)).After(paths, Ends(paths) + {this}, old(value), timestamp)
      decreases |Reachable(graph, this)|, 0
    {
      hide *;
      paths := {};
      var remaining := listeners;
      ghost var before := StateOf(graph);
      StateAt(graph, this);
      Listening(graph, this);
      NothingCascades(before, value, timestamp);
      ViaNone(graph, path);
      NoEnds<Field<V>>();
      assert listeners - remaining == {};
      while remaining != {}
        invariant remaining <= listeners
        invariant ExtensionsVia(graph, path, listeners - remaining, paths)
        invariant StateOf(graph) == before.After(paths, Ends(paths), old(value), timestamp)
        invariant value == old(value)
        decreases |remaining|
      {
        var listener :| listener in remaining;
        ghost var done := listeners - remaining;
        ReachableShrinks(graph, this, listener);
        Listening(graph, listener);
        PathsJoin(graph, path, [listener]);
        ghost var more := listener.DoProcessEvent(value, timestamp, graph, path + [listener]);
        ViaOneMore(graph, path, done, paths, listener, more);
        CascadeJoin(before, paths, Ends(paths), more, Ends(more), old(value), timestamp);
        EndsJoin(paths, more);
        EndsBeyond(graph, path, {listener}, more);
        EndsBeyond(graph, path, done + {listener}, paths + more);
        ElsewhereStays(before, paths + more, Ends(paths + more), this, old(value), timestamp);
        StateAt(graph, this);
        remaining := remaining - {listener};
        assert listeners - remaining == done + {listener};
        paths := paths + more;
      }
      assert listeners - remaining == listeners;
      EmitterDone(before, paths, Ends(paths), this, old(value), timestamp);
      Stamp(timestamp, graph);
    }

    method DoProcessEvent(value: V, timestamp: real, ghost graph: Graph<Field<V>>, ghost path: seq<Field<V>>)
      returns (ghost paths: set<seq<Field<V>>>)
      requires Wired(graph) && Acyclic(graph)
      requires this in graph && path != [] && IsPath(graph, path) && Last(path) == this
      modifies graph.Keys`value, graph.Keys`lastTime, graph.Keys`processed, NodesOf(graph.Keys)`modified
      ensures Extensions(graph, path, paths)
      ensures StateOf(graph) == old(StateOf(graph)).After(paths, Ends(paths), value, timestamp)
      decreases |Reachable(graph, this)|, 1
    {
      hide *;
      ghost var before := StateOf(graph);
      StateAt(graph, this);
      Listening(graph, this);
      Store(value, graph);
      OneEvent(before, path, value, timestamp);
      ghost var more := EmitEvent(timestamp, graph, path);
      ViaAll(graph, path, more);
      CascadeJoin(before, {path}, {}, more, Ends(more) + {this}, value, timestamp);
      EndsJoin({path}, more);
      EndsOne(path);
      assert {} + (Ends(more) + {this}) == {this} + Ends(more);
      paths := {path} + more;
    }
  }

  /** An event sent to a field of an acyclic graph.  Whatever order the listeners
      are taken in, every field that can be reached has the value in the end and
      has emitted it at the given time; it has processed the event once for
      every path that leads to it; its node is marked as modified.  Nothing else
      has changed. */
  method ProcessEvent<V>(field: Field<V>, value: V, timestamp: real, ghost graph: Graph<Field<V>>)
    returns (ghost paths: set<seq<Field<V>>>)
    requires Wired(graph) && Acyclic(graph) && field in graph
    modifies graph.Keys`value, graph.Keys`lastTime, graph.Keys`processed, NodesOf(graph.Keys)`modified
    ensures forall p: seq<Field<V>> :: p in paths <==> IsPath(graph, p) && p[0] == field
    ensures forall f :: f in graph && Reaches(graph, field, f) ==>
      f.value == value && f.lastTime == timestamp && f.node.modified
    ensures forall f :: f in graph && !Reaches(graph, field, f) ==>
      f.value == old(f.value) && f.lastTime == old(f.lastTime)
    ensures forall f :: f in graph ==> f.processed == old(f.processed) + |PathsTo(paths, f)|
    ensures forall n :: n in NodesOf(graph.Keys) && n.modified != old(n.modified) ==>
      exists f :: f in graph && f.node == n && Reaches(graph, field, f)
  {
    Listening(graph, field);
    StateFacts(graph);
    ghost var before := StateOf(graph);
    paths := field.DoProcessEvent(value, timestamp, graph, [field]);
    EndsReached(graph, field, paths);
    StateFacts(graph);
    AfterFacts(before, paths, value, timestamp);
    NodesOfEnds(graph, paths);
    hide *;
  }

  function NodesOf<V>(fields: set<Field<V>>): set<Node> {
    set f | f in fields :: f.node
  }

  /** The fields of the graph have the listeners it says. */
  ghost predicate Wired<V>(graph: Graph<Field<V>>)
    reads graph.Keys`listeners
  {
    Closed(graph) && forall f :: f in graph ==> f.listeners == graph[f]
  }

  /** A map with the same value at all of some keys. */
  ghost function Overwritten<K, T>(m: map<K, T>, keys: set<K>, value: T): map<K, T> {
    map k | k in m :: if k in keys then value else m[k]
  }

  /** The counts after one more event along each path. */
  ghost function Counted<K>(m: map<K, nat>, paths: set<seq<K>>): map<K, nat> {
    map k | k in m :: m[k] + |PathsTo(paths, k)|
  }

  /** What an event can change. */
  datatype State<!V> = State(
    values: map<Field<V>, V>,
    times: map<Field<V>, real>,
    processed: map<Field<V>, nat>,
    modified: map<Node, bool>)
  {
    /** The state after one delivery of `value` along each of `paths`, when
        `emitters` have done emitting. */
    ghost function After(paths: set<seq<Field<V>>>, emitters: set<Field<V>>, value: V, timestamp: real): State<V> {
      State(
        Overwritten(values, Ends(paths), value),
        Overwritten(times, emitters, timestamp),
        Counted(processed, paths),
        Overwritten(modified, NodesOf(Ends(paths)), true))
    }
  }

  ghost function ValuesOf<V>(graph: Graph<Field<V>>): map<Field<V>, V>
    reads graph.Keys`value
  {
    map f | f in graph :: f.value
  }

  ghost function TimesOf<V>(graph: Graph<Field<V>>): map<Field<V>, real>
    reads graph.Keys`lastTime
  {
    map f | f in graph :: f.lastTime
  }

  ghost function ProcessedOf<V>(graph: Graph<Field<V>>): map<Field<V>, nat>
    reads graph.Keys`processed
  {
    map f | f in graph :: f.processed
  }

  ghost function ModifiedOf<V>(graph: Graph<Field<V>>): map<Node, bool>
    reads NodesOf(graph.Keys)`modified
  {
    map n | n in NodesOf(graph.Keys) :: n.modified
  }

  ghost function StateOf<V>(graph: Graph<Field<V>>): State<V>
    reads graph.Keys`value, graph.Keys`lastTime, graph.Keys`processed, NodesOf(graph.Keys)`modified
  {
    State(ValuesOf(graph), TimesOf(graph), ProcessedOf(graph), ModifiedOf(graph))
  }

  lemma Listening<V>(graph: Graph<Field<V>>, f: Field<V>)
    requires Wired(graph) && f in graph
    ensures f.listeners == graph[f] && Closed(graph) && graph[f] <= graph.Keys
    ensures IsPath(graph, [f]) && Last([f]) == f
    ensures f.node in NodesOf(graph.Keys)
  {
  }

  lemma StateAt<V>(graph: Graph<Field<V>>, f: Field<V>)
    requires f in graph
    ensures var s := StateOf(graph);
      && f in s.values && f in s.times && f in s.processed && f.node in s.modified
      && s.values[f] == f.value
    ensures f.node in NodesOf(graph.Keys)
  {
  }

  lemma StateFacts<V>(graph: Graph<Field<V>>)
    ensures var s := StateOf(graph);
      && (forall f :: f in graph ==> f in s.values && s.values[f] == f.value)
      && (forall f :: f in graph ==> f in s.times && s.times[f] == f.lastTime)
      && (forall f :: f in graph ==> f in s.processed && s.processed[f] == f.processed)
      && (forall n :: n in NodesOf(graph.Keys) ==> n in s.modified && s.modified[n] == n.modified)
  {
  }

  lemma AfterFacts<V>(s: State<V>, paths: set<seq<Field<V>>>, value: V, timestamp: real)
    ensures var r := s.After(paths, Ends(paths), value, timestamp);
      && (forall f :: f in s.values ==> f in r.values && r.values[f] == if f in Ends(paths) then value else s.values[f])
      && (forall f :: f in s.times ==> f in r.times && r.times[f] == if f in Ends(paths) then timestamp else s.times[f])
      && (forall f :: f in s.processed ==> f in r.processed && r.processed[f] == s.processed[f] + |PathsTo(paths, f)|)
      && (forall n :: n in s.modified ==>
        n in r.modified && r.modified[n] == (s.modified[n] || n in NodesOf(Ends(paths))))
  {
    hide Ends, PathsTo, NodesOf;
  }

  lemma NodesOfEnds<V>(graph: Graph<Field<V>>, paths: set<seq<Field<V>>>)
    ensures forall f :: f in graph ==> f.node in NodesOf(graph.Keys)
    ensures forall f :: f in Ends(paths) ==> f.node in NodesOf(Ends(paths))
    ensures forall n :: n in NodesOf(Ends(paths)) ==> exists f :: f in Ends(paths) && f.node == n
  {
    hide Ends;
  }

  lemma OverwriteNone<K, T>(m: map<K, T>, value: T)
    ensures Overwritten(m, {}, value) == m
  {
  }

  lemma OverwriteTwice<K, T>(m: map<K, T>, a: set<K>, b: set<K>, value: T)
    ensures Overwritten(Overwritten(m, a, value), b, value) == Overwritten(m, a + b, value)
  {
  }

  lemma CountTwice<K>(m: map<K, nat>, paths: set<seq<K>>, more: set<seq<K>>)
    requires paths !! more
    ensures Counted(Counted(m, paths), more) == Counted(m, paths + more)
  {
    forall k | k in m
      ensures |PathsTo(paths + more, k)| == |PathsTo(paths, k)| + |PathsTo(more, k)|
    {
      PathsToJoin(paths, more, k);
    }
  }

  lemma CountNone<K>(m: map<K, nat>)
    ensures Counted(m, {}) == m
  {
    var none: set<seq<K>> := {};
    assert forall k :: PathsTo(none, k) == {};
  }

  lemma CountOne<K>(m: map<K, nat>, path: seq<K>)
    requires path != [] && Last(path) in m
    ensures Counted(m, {path}) == m[Last(path) := m[Last(path)] + 1]
  {
    forall k | k in m
      ensures |PathsTo({path}, k)| == if k == Last(path) then 1 else 0
    {
      assert PathsTo({path}, k) == if k == Last(path) then {path} else {};
    }
  }

  lemma NothingCascades<V>(s: State<V>, value: V, timestamp: real)
    ensures s.After({}, {}, value, timestamp) == s
  {
    OverwriteNone(s.values, value);
    OverwriteNone(s.times, timestamp);
    OverwriteNone(s.modified, true);
    CountNone(s.processed);
    var none: set<seq<Field<V>>> := {};
    assert Ends(none) == {};
    assert NodesOf(Ends(none)) == {};
  }

  lemma CascadeJoin<V>(s: State<V>, paths: set<seq<Field<V>>>, emitters: set<Field<V>>,
                       more: set<seq<Field<V>>>, others: set<Field<V>>, value: V, timestamp: real)
    requires paths !! more
    ensures s.After(paths, emitters, value, timestamp).After(more, others, value, timestamp)
         == s.After(paths + more, emitters + others, value, timestamp)
  {
    EndsJoin(paths, more);
    OverwriteTwice(s.values, Ends(paths), Ends(more), value);
    OverwriteTwice(s.times, emitters, others, timestamp);
    OverwriteTwice(s.modified, NodesOf(Ends(paths)), NodesOf(Ends(more)), true);
    CountTwice(s.processed, paths, more);
    assert NodesOf(Ends(paths) + Ends(more)) == NodesOf(Ends(paths)) + NodesOf(Ends(more));
    hide Overwritten, Counted, Ends, NodesOf;
  }

  lemma OneEvent<V>(s: State<V>, path: seq<Field<V>>, value: V, timestamp: real)
    requires path != []
    requires Last(path) in s.values && Last(path) in s.processed && Last(path).node in s.modified
    ensures var f := Last(path);
      s.After({path}, {}, value, timestamp)
      == State(s.values[f := value], s.times, s.processed[f := s.processed[f] + 1], s.modified[f.node := true])
  {
    var f := Last(path);
    assert Ends({path}) == {f} && NodesOf({f}) == {f.node};
    CountOne(s.processed, path);
    OverwriteNone(s.times, timestamp);
    hide Counted, Ends, NodesOf;
    assert Overwritten(s.values, {f}, value) == s.values[f := value];
    assert Overwritten(s.modified, {f.node}, true) == s.modified[f.node := true];
  }

  lemma ElsewhereStays<V>(s: State<V>, paths: set<seq<Field<V>>>, emitters: set<Field<V>>, f: Field<V>,
                          value: V, timestamp: real)
    requires f in s.values && f !in Ends(paths)
    ensures var r := s.After(paths, emitters, value, timestamp);
      f in r.values && r.values[f] == s.values[f]
  {
    hide Ends;
  }

  lemma EmitterDone<V>(s: State<V>, paths: set<seq<Field<V>>>, emitters: set<Field<V>>, f: Field<V>,
                       value: V, timestamp: real)
    requires f in s.times
    ensures var r := s.After(paths, emitters, value, timestamp);
      s.After(paths, emitters + {f}, value, timestamp) == r.(times := r.times[f := timestamp])
  {
    hide Ends, Counted, NodesOf;
    assert Overwritten(s.times, emitters + {f}, timestamp) == Overwritten(s.times, emitters, timestamp)[f := timestamp];
  }
}
