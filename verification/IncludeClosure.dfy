/**
  The compatibility parser's include traversal: depth first, each file once, refusing cycles.
  Path resolution and the include regular expression are behind the map from a resolved path
  to what reading that file yields.
 */
module IncludeClosure {

  type Path = string

  /** Reading a file either fails (I/O error, undecodable or empty include) or lists its includes. */
  datatype Source = Unreadable | Includes(children: seq<Path>)

  /** A path outside the map cannot be resolved to a regular file. */
  type Tree = map<Path, Source>

  datatype Outcome =
    | Done
    | Cycle(trail: seq<Path>)
    | Unavailable(path: Path)

  predicate Readable(g: Tree, p: Path) {
    p in g && g[p].Includes?
  }

  function Children(g: Tree, p: Path): seq<Path> {
    if Readable(g, p) then g[p].children else []
  }

  predicate Edge(g: Tree, u: Path, v: Path) {
    v in Children(g, u)
  }

  /** A chain of include directives. */
  ghost predicate IsWalk(g: Tree, from: Path, p: seq<Path>) {
    if |p| <= 1 then p == [from]
    else IsWalk(g, from, p[..|p| - 1]) && Edge(g, p[|p| - 2], p[|p| - 1])
  }

  lemma {:induction false} WalkEdge(g: Tree, from: Path, p: seq<Path>, i: nat)
    requires IsWalk(g, from, p) && i < |p|
    ensures p[0] == from && IsWalk(g, from, p[..i + 1])
    ensures i + 1 < |p| ==> Edge(g, p[i], p[i + 1])
  {
    if i + 1 < |p| {
      var front := p[..|p| - 1];
      WalkEdge(g, from, front, i);
      assert front[..i + 1] == p[..i + 1];
      if i + 2 < |p| {
        assert p[i] == front[i] && p[i + 1] == front[i + 1];
      }
    } else {
      if i > 0 {
        WalkEdge(g, from, p[..|p| - 1], 0);
      }
      assert p[..i + 1] == p;
    }
  }

  ghost predicate Reachable(g: Tree, from: Path, v: Path) {
    exists p :: IsWalk(g, from, p) && p[|p| - 1] == v
  }

  /** A chain of includes that comes back to a file it already passed. */
  ghost predicate IsCyclicWalk(g: Tree, from: Path, p: seq<Path>) {
    IsWalk(g, from, p) && exists i :: 0 <= i < |p| - 1 && p[i] == p[|p| - 1]
  }

  ghost predicate CycleReachable(g: Tree, from: Path) {
    exists p :: IsCyclicWalk(g, from, p)
  }

  ghost predicate AllReadable(g: Tree, from: Path) {
    forall v :: Reachable(g, from, v) ==> Readable(g, v)
  }

  predicate NoDuplicates(s: seq<Path>) {
    forall i, j :: 0 <= i < j < |s| ==> s[i] != s[j]
  }

  /** Every file stands after all the files it includes. */
  ghost predicate Topological(g: Tree, order: seq<Path>) {
    forall i, v :: 0 <= i < |order| && Edge(g, order[i], v) ==> v in order[..i]
  }

  /**
    Reference preorder, by an explicit work list instead of recursion: take the first pending
    file, skip it if already listed, otherwise list it and put its includes in front.
   */
  ghost function Preorder(g: Tree, todo: seq<Path>, seen: set<Path>): seq<Path>
    decreases g.Keys - seen, |todo|
  {
    if todo == [] then []
    else if todo[0] in seen || todo[0] !in g then Preorder(g, todo[1..], seen)
    else [todo[0]] + Preorder(g, Children(g, todo[0]) + todo[1..], seen + {todo[0]})
  }

  lemma PreorderStep(g: Tree, path: Path, rest: seq<Path>, seen: set<Path>)
    ensures path in seen ==> Preorder(g, [path] + rest, seen) == Preorder(g, rest, seen)
    ensures path !in seen && path in g ==>
      Preorder(g, [path] + rest, seen) == [path] + Preorder(g, Children(g, path) + rest, seen + {path})
  {
    assert ([path] + rest)[1..] == rest;
  }

  lemma ReachableByWalk(g: Tree, from: Path, p: seq<Path>)
    requires IsWalk(g, from, p)
    ensures Reachable(g, from, p[|p| - 1])
  {}

  /** A set that is closed under includes and contains the entry contains every walk. */
  lemma {:induction false} WalkStaysIn(g: Tree, from: Path, p: seq<Path>, order: seq<Path>, k: nat)
    requires IsWalk(g, from, p) && k < |p|
    requires from in order && Topological(g, order)
    ensures p[k] in order
  {
    WalkEdge(g, from, p, 0);
    if k > 0 {
      WalkEdge(g, from, p, k - 1);
      WalkStaysIn(g, from, p, order, k - 1);
      var i :| 0 <= i < |order| && order[i] == p[k - 1];
      assert Edge(g, order[i], p[k]);
    }
  }

  /** Along a walk the position in a topological order strictly decreases. */
  lemma {:induction false} WalkDescends(g: Tree, from: Path, p: seq<Path>, order: seq<Path>, i: nat, j: nat, at: nat)
    requires IsWalk(g, from, p) && i < j < |p|
    requires NoDuplicates(order) && Topological(g, order)
    requires at < |order| && order[at] == p[i]
    ensures p[j] in order[..at]
    decreases j - i
  {
    WalkEdge(g, from, p, i);
    assert p[i + 1] in order[..at];
    if i + 1 < j {
      var below :| 0 <= below < at && order[below] == p[i + 1];
      WalkDescends(g, from, p, order, i + 1, j, below);
      assert order[..below] <= order[..at];
    }
  }

  /** A closed topological order rules cycles out. */
  lemma NoCycleInOrder(g: Tree, from: Path, order: seq<Path>)
    requires from in order && NoDuplicates(order) && Topological(g, order)
    ensures !CycleReachable(g, from)
    ensures forall v :: Reachable(g, from, v) ==> v in order
  {
    forall p | IsWalk(g, from, p)
      ensures p[|p| - 1] in order && !IsCyclicWalk(g, from, p)
    {
      WalkStaysIn(g, from, p, order, |p| - 1);
      forall i | 0 <= i < |p| - 1
        ensures p[i] != p[|p| - 1]
      {
        WalkStaysIn(g, from, p, order, i);
        var at :| 0 <= at < |order| && order[at] == p[i];
        WalkDescends(g, from, p, order, i, |p| - 1, at);
      }
    }
  }

  /**
    The k-th file is the first include that is not listed yet of the latest listed file that has one:
    i is that file's position and c the position of the include directive.
   */
  ghost predicate Continues(g: Tree, s: seq<Path>, k: nat)
    requires k < |s|
  {
    exists i, c ::
      && 0 <= i < k && s[i] in g && g[s[i]].Includes? && 0 <= c < |g[s[i]].children|
      && g[s[i]].children[c] == s[k] && s[k] !in s[..k]
      && (forall d :: 0 <= d < c ==> g[s[i]].children[d] in s[..k])
      && (forall j, d :: i < j < k && s[j] in g && g[s[j]].Includes? && 0 <= d < |g[s[j]].children| ==>
            g[s[j]].children[d] in s[..k])
  }

  /** Every file but the first continues the list. */
  ghost predicate DepthFirst(g: Tree, s: seq<Path>) {
    forall k :: 0 < k < |s| ==> Continues(g, s, k)
  }

  /** The position of the directive that leads to a file: all before it, and all of later files, are listed. */
  ghost predicate LeadsTo(g: Tree, s: seq<Path>, at: nat, c: nat, path: Path) {
    && at < |s| && s[at] in g && g[s[at]].Includes? && c < |g[s[at]].children| && g[s[at]].children[c] == path
    && (forall d :: 0 <= d < c ==> g[s[at]].children[d] in s)
    && (forall j, d :: at < j < |s| && s[j] in g && g[s[j]].Includes? && 0 <= d < |g[s[j]].children| ==>
          g[s[j]].children[d] in s)
  }

  lemma ListNext(g: Tree, s: seq<Path>, at: nat, c: nat, path: Path)
    requires DepthFirst(g, s) && path !in s && (s != [] ==> LeadsTo(g, s, at, c, path))
    ensures DepthFirst(g, s + [path])
  {
    var longer := s + [path];
    forall k | 0 < k < |longer|
      ensures Continues(g, longer, k)
    {
      if k == |s| {
        assert longer[..k] == s;
        assert longer[at] == s[at];
        assert g[longer[at]].children[c] == longer[k];
      } else {
        assert Continues(g, s, k) && longer[..k] == s[..k];
        ContinuesLonger(g, s, longer, k);
      }
    }
  }

  lemma ContinuesLonger(g: Tree, s: seq<Path>, longer: seq<Path>, k: nat)
    requires s <= longer && k < |s| && Continues(g, s, k)
    ensures Continues(g, longer, k)
  {
    var i, c :| 0 <= i < k && s[i] in g && g[s[i]].Includes? && 0 <= c < |g[s[i]].children|
      && g[s[i]].children[c] == s[k] && s[k] !in s[..k]
      && (forall d :: 0 <= d < c ==> g[s[i]].children[d] in s[..k])
      && (forall j, d :: i < j < k && s[j] in g && g[s[j]].Includes? && 0 <= d < |g[s[j]].children| ==>
            g[s[j]].children[d] in s[..k]);
    assert longer[..k] == s[..k] && longer[i] == s[i];
    assert g[longer[i]].children[c] == longer[k];
  }

  /** Files whose visit has ended have all their includes listed. */
  lemma FinishedIncludes(g: Tree, entry: Path, reach: iset<Path>, ordered: seq<Path>, seen: set<Path>,
                         active: seq<Path>, finished: seq<Path>)
    requires Consistent(g, entry, reach, ordered, seen, active, finished)
    ensures forall v :: v in finished ==> v in g && g[v].Includes? && forall c :: c in g[v].children ==> c in ordered
    ensures forall v :: v in finished ==> v in ordered
  {
    forall v, c | v in finished && c in g[v].children
      ensures c in ordered
    {
      var i :| 0 <= i < |finished| && finished[i] == v;
      assert Edge(g, finished[i], c);
    }
  }

  /** What relates the traversal's collections whenever no visit has failed. */
  ghost predicate Consistent(g: Tree, entry: Path, reach: iset<Path>, ordered: seq<Path>, seen: set<Path>,
                             active: seq<Path>, finished: seq<Path>) {
    && NoDuplicates(ordered) && (forall v :: v in ordered <==> v in seen)
    && seen <= g.Keys
    && (active != [] ==> IsWalk(g, entry, active))
    && NoDuplicates(active) && NoDuplicates(finished)
    && (forall v :: v in seen <==> v in active || v in finished)
    && (forall v :: v in active ==> v !in finished)
    && Topological(g, finished)
    && (forall v :: v in finished ==> Readable(g, v))
    && (forall v :: v in seen ==> v in reach)
  }

  ghost function ReachSet(g: Tree, from: Path): iset<Path> {
    iset v | Reachable(g, from, v)
  }

  /** All that the traversal uses of reachability. */
  ghost predicate ClosedFrom(g: Tree, from: Path, reach: iset<Path>) {
    from in reach && forall u, v :: u in reach && Edge(g, u, v) ==> v in reach
  }

  lemma ReachIsClosed(g: Tree, from: Path)
    ensures ClosedFrom(g, from, ReachSet(g, from))
  {
    assert IsWalk(g, from, [from]);
    ReachableByWalk(g, from, [from]);
    forall u, v | Reachable(g, from, u) && Edge(g, u, v)
      ensures Reachable(g, from, v)
    {
      var p :| IsWalk(g, from, p) && p[|p| - 1] == u;
      assert (p + [v])[..|p|] == p;
      ReachableByWalk(g, from, p + [v]);
    }
  }

  /** Opening a file keeps the collections consistent. */
  lemma Enter(g: Tree, entry: Path, reach: iset<Path>, ordered: seq<Path>, seen: set<Path>, active: seq<Path>,
              finished: seq<Path>,
              path: Path)
    requires Consistent(g, entry, reach, ordered, seen, active, finished)
    requires IsWalk(g, entry, active + [path]) && path in g && path !in seen && path in reach
    ensures Consistent(g, entry, reach, ordered + [path], seen + {path}, active + [path], finished)
  {
    assert (active + [path])[|active|] == path;
  }

  /** So does closing it once all its includes are finished. */
  lemma Leave(g: Tree, entry: Path, reach: iset<Path>, ordered: seq<Path>, seen: set<Path>, active: seq<Path>,
              finished: seq<Path>,
              path: Path)
    requires Consistent(g, entry, reach, ordered, seen, active + [path], finished)
    requires Readable(g, path) && forall c :: c in g[path].children ==> c in finished
    ensures Consistent(g, entry, reach, ordered, seen, active, finished + [path])
  {
    var longer := active + [path];
    assert forall i :: 0 <= i < |active| ==> longer[i] == active[i];
    assert longer[|active|] == path;
    assert path in longer;
    assert forall v :: v in longer <==> v in active || v == path;
    if active != [] {
      assert longer[..|longer| - 1] == active;
    }
    var order := finished + [path];
    forall i, v | 0 <= i < |order| && Edge(g, order[i], v)
      ensures v in order[..i]
    {
      if i < |finished| {
        assert Edge(g, finished[i], v);
        assert order[..i] == finished[..i];
      } else {
        assert order[..i] == finished;
      }
    }
  }

  lemma TrailOfIncludes(g: Tree, from: Path, trail: seq<Path>)
    requires IsCyclicWalk(g, from, trail)
    ensures |trail| > 1 && trail[0] == from && trail[|trail| - 1] in trail[..|trail| - 1]
    ensures forall i :: 0 <= i < |trail| - 1 ==>
      trail[i] in g && g[trail[i]].Includes? && trail[i + 1] in g[trail[i]].children
  {
    WalkEdge(g, from, trail, 0);
    forall i | 0 <= i < |trail| - 1
      ensures trail[i] in g && g[trail[i]].Includes? && trail[i + 1] in g[trail[i]].children
    {
      WalkEdge(g, from, trail, i);
    }
    var i :| 0 <= i < |trail| - 1 && trail[i] == trail[|trail| - 1];
    assert trail[..|trail| - 1][i] == trail[|trail| - 1];
  }

  /** The three collections that the nested function of the traversal mutates. */
  class Traversal {
    const graph: Tree
    const entry: Path
    ghost const reach: iset<Path>
    var ordered: seq<Path>
    var seen: set<Path>
    var active: seq<Path>
    /** Files in the order their visit ended. */
    ghost var finished: seq<Path>

    constructor (graph: Tree, entry: Path)
      ensures this.graph == graph && this.entry == entry && reach == ReachSet(graph, entry)
      ensures Valid() && ordered == [] && seen == {} && active == [] && finished == []
    {
      this.graph, this.entry, this.reach := graph, entry, ReachSet(graph, entry);
      ReachIsClosed(graph, entry);
      ordered, seen, active, finished := [], {}, [], [];
    }

    ghost predicate Valid()
      reads this
    {
      ClosedFrom(graph, entry, reach) && Consistent(graph, entry, reach, ordered, seen, active, finished)
    }

    /** A reported failure is a real one. */
    ghost predicate Explains(outcome: Outcome) {
      match outcome
      case Done => true
      case Cycle(trail) => IsCyclicWalk(graph, entry, trail)
      case Unavailable(p) => p in reach && !Readable(graph, p)
    }

    /** Extending the active chain by the file about to be visited. */
    lemma Extend(path: Path)
      requires Valid()
      requires if active == [] then path == entry else Edge(graph, active[|active| - 1], path)
      ensures IsWalk(graph, entry, active + [path])
      ensures path in reach
      ensures path in active ==> IsCyclicWalk(graph, entry, active + [path])
      ensures path in seen && path !in active ==> path in finished
    {
      var trail := active + [path];
      assert trail[..|trail| - 1] == active;
      assert trail[|trail| - 1] == path;
      if path in active {
        var i :| 0 <= i < |active| && active[i] == path;
        assert trail[i] == path;
      }
    }

    lemma SeenIsListed()
      requires Valid()
      ensures forall v :: v in ordered <==> v in seen
    {}

    /** Between two visits below a file, its next directive leads on. */
    lemma NextDirective(at: nat, k: nat, path: Path)
      requires Valid() && at < |ordered| && ordered[at] == path && Readable(graph, path) && k < |graph[path].children|
      requires forall v :: v in ordered[at + 1..] ==> v in finished
      requires forall c :: c in graph[path].children[..k] ==> c in finished
      ensures LeadsTo(graph, ordered, at, k, graph[path].children[k])
    {
      FinishedIncludes(graph, entry, reach, ordered, seen, active, finished);
      forall j, d | at < j < |ordered| && ordered[j] in graph && graph[ordered[j]].Includes?
                    && 0 <= d < |graph[ordered[j]].children|
        ensures graph[ordered[j]].children[d] in ordered
      {
        assert ordered[j] in ordered[at + 1..];
      }
      forall d | 0 <= d < k
        ensures graph[ordered[at]].children[d] in ordered
      {
        assert graph[path].children[d] in graph[path].children[..k];
      }
    }

    method Open(path: Path)
      requires Valid() && IsWalk(graph, entry, active + [path]) && path in graph && path !in seen && path in reach
      modifies this
      ensures Valid() && finished == old(finished)
      ensures ordered == old(ordered) + [path] && seen == old(seen) + {path} && active == old(active) + [path]
    {
      hide Consistent, IsWalk;
      Enter(graph, entry, reach, ordered, seen, active, finished, path);
      seen := seen + {path};
      ordered := ordered + [path];
      active := active + [path];
    }

    method Close(ghost path: Path)
      requires Valid() && active != [] && active[|active| - 1] == path
      requires Readable(graph, path) && forall c :: c in graph[path].children ==> c in finished
      modifies this
      ensures Valid() && ordered == old(ordered) && seen == old(seen)
      ensures active == old(active)[..|old(active)| - 1] && finished == old(finished) + [path]
    {
      hide Consistent, IsWalk;
      ghost var shorter := active[..|active| - 1];
      assert active == shorter + [path];
      Leave(graph, entry, reach, ordered, seen, shorter, finished, path);
      active := active[..|active| - 1];
      finished := finished + [path];
    }

    /** The directive under which a file is visited, if it is not the entry. */
    ghost predicate Under(at: nat, c: nat, path: Path)
      reads this
    {
      ordered != [] ==> LeadsTo(graph, ordered, at, c, path)
    }

    method Visit(path: Path, ghost rest: seq<Path>, ghost at: nat, ghost c: nat)
      returns (outcome: Outcome, ghost added: seq<Path>)
      requires Valid() && DepthFirst(graph, ordered) && Under(at, c, path)
      requires if active == [] then path == entry else Edge(graph, active[|active| - 1], path)
      modifies this
      decreases graph.Keys - seen, 0
      ensures old(seen) <= seen && Explains(outcome)
      ensures outcome.Done? ==>
        && Valid() && active == old(active) && path in finished
        && (forall v :: v in old(finished) ==> v in finished)
        && ordered == old(ordered) + added
        && Preorder(graph, [path] + rest, old(seen)) == added + Preorder(graph, rest, seen)
        && DepthFirst(graph, ordered) && (forall v :: v in added ==> v in finished)
    {
      hide DepthFirst, LeadsTo, Consistent, ClosedFrom, IsWalk, IsCyclicWalk, Preorder;
      Extend(path);
      PreorderStep(graph, path, rest, seen);
      added := [];
      if path !in graph {
        return Unavailable(path), added;
      }
      if path in active {
        return Cycle(active + [path]), added;
      }
      if path in seen {
        return Done, added;
      }
      SeenIsListed();
      ListNext(graph, ordered, at, c, path);
      Open(path);
      if graph[path].Unreadable? {
        return Unavailable(path), added;
      }
      outcome, added := VisitIncludes(path, rest);
      if !outcome.Done? {
        return;
      }
      Close(path);
      added := [path] + added;
    }

    /** The includes of a file that has just been opened, in the order of its directives. */
    method VisitIncludes(path: Path, ghost rest: seq<Path>) returns (outcome: Outcome, ghost added: seq<Path>)
      requires Valid() && DepthFirst(graph, ordered) && active != [] && active[|active| - 1] == path
      requires Readable(graph, path) && ordered != [] && ordered[|ordered| - 1] == path
      modifies this
      decreases graph.Keys - seen, 1
      ensures old(seen) <= seen && Explains(outcome)
      ensures outcome.Done? ==>
        && Valid() && active == old(active)
        && (forall v :: v in old(finished) ==> v in finished)
        && (forall c :: c in graph[path].children ==> c in finished)
        && ordered == old(ordered) + added
        && Preorder(graph, graph[path].children + rest, old(seen)) == added + Preorder(graph, rest, seen)
        && DepthFirst(graph, ordered) && (forall v :: v in added ==> v in finished)
    {
      hide DepthFirst, LeadsTo, Consistent, ClosedFrom, Preorder;
      var children := graph[path].children;
      added := [];
      assert children[0..] == children;
      for k := 0 to |children|
        invariant Valid() && active == old(active) && old(seen) <= seen
        invariant forall c :: c in children[..k] ==> c in finished
        invariant forall v :: v in old(finished) ==> v in finished
        invariant ordered == old(ordered) + added && DepthFirst(graph, ordered)
        invariant forall v :: v in added ==> v in finished
        invariant Preorder(graph, children + rest, old(seen)) == added + Preorder(graph, children[k..] + rest, seen)
      {
        ghost var later, more := children[k + 1..] + rest, [];
        assert children[k..] + rest == [children[k]] + later;
        assert children[..k + 1] == children[..k] + [children[k]];
        assert ordered[|old(ordered)|..] == added;
        NextDirective(|old(ordered)| - 1, k, path);
        outcome, more := Visit(children[k], later, |old(ordered)| - 1, k);
        if !outcome.Done? {
          return;
        }
        added := added + more;
      }
      assert children[|children|..] + rest == rest;
      outcome := Done;
    }
  }

  /**
    The whole traversal. It accepts exactly the acyclic readable closures, lists each reachable
    file once and in preorder, and blames a real cycle or a real missing file otherwise.
   */
  method RecursiveIncludePaths(graph: Tree, entry: Path)
    returns (outcome: Outcome, ordered: seq<Path>, ghost finishOrder: seq<Path>)
    ensures outcome.Done? <==> AllReadable(graph, entry) && !CycleReachable(graph, entry)
    ensures AllReadable(graph, entry) ==> (outcome.Cycle? <==> CycleReachable(graph, entry))
    ensures outcome.Cycle? ==> IsCyclicWalk(graph, entry, outcome.trail)
    ensures outcome.Unavailable? ==> Reachable(graph, entry, outcome.path) && !Readable(graph, outcome.path)
    ensures outcome.Done? ==>
      && NoDuplicates(ordered) && (forall v :: v in ordered <==> Reachable(graph, entry, v))
      && ordered == Preorder(graph, [entry], {})
      && NoDuplicates(finishOrder) && Topological(graph, finishOrder)
      && (forall v :: v in finishOrder <==> v in ordered)
    // Said of the directives alone: the entry comes first, each later file is the first include not
    // listed yet of the latest listed file that has one, and in the end no file has one.
    ensures outcome.Done? ==>
      && ordered != [] && ordered[0] == entry && DepthFirst(graph, ordered)
      && forall i, c :: 0 <= i < |ordered| ==>
        ordered[i] in graph && graph[ordered[i]].Includes? && (c in graph[ordered[i]].children ==> c in ordered)
    ensures outcome.Cycle? ==>
      && var trail := outcome.trail;
      && |trail| > 1 && trail[0] == entry && trail[|trail| - 1] in trail[..|trail| - 1]
      && forall i :: 0 <= i < |trail| - 1 ==>
        trail[i] in graph && graph[trail[i]].Includes? && trail[i + 1] in graph[trail[i]].children
  {
    var t := new Traversal(graph, entry);
    ghost var added;
    outcome, added := t.Visit(entry, [], 0, 0);
    ordered, finishOrder := t.ordered, t.finished;
    match outcome {
      case Done =>
        NoCycleInOrder(graph, entry, t.finished);
        assert [entry] + [] == [entry];
        FinishedIncludes(graph, entry, t.reach, t.ordered, t.seen, t.active, t.finished);
      case Cycle(trail) =>
        assert CycleReachable(graph, entry);
        TrailOfIncludes(graph, entry, trail);
      case Unavailable(p) =>
    }
  }
}
