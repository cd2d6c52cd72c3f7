/**
 * Circular dependency detection between workspace packages
 * (scripts/docs/generate-package-deps.ts).
 *
 * The walk keeps the source's three collections (`visited`, `recStack`,
 * `circular`).  Ghost fields explain them: `entered` is the listing that each visited
 * name was entered with, `stack` is `recStack` as the path the recursion is on, and
 * `finish` numbers the packages in the order in which they leave `recStack`.
 */
module PackageCycles {
  datatype PackageNode = PackageNode(name: string, dependencies: seq<string>)

  type Edge = (string, string)

  /** A name stands for one package, however often it is listed. */
  predicate Consistent(nodes: seq<PackageNode>) {
    forall m, n :: m in nodes && n in nodes && m.name == n.name ==> m == n
  }

  function Names(nodes: seq<PackageNode>): set<string> {
    set n | n in nodes :: n.name
  }

  /** The dependency edges between known packages; other dependencies have no node. */
  function Edges(nodes: seq<PackageNode>): set<Edge> {
    set n, d | n in nodes && d in n.dependencies && d in Names(nodes) :: (n.name, d)
  }

  /** The listing is the first or the last of its name. */
  predicate FirstOrLast(nodes: seq<PackageNode>, i: nat)
    requires i < |nodes|
  {
    || (forall j :: 0 <= j < i ==> nodes[j].name != nodes[i].name)
    || (forall j :: i < j < |nodes| ==> nodes[j].name != nodes[i].name)
  }

  function Listings(nodes: seq<PackageNode>): set<PackageNode> {
    set i | 0 <= i < |nodes| && FirstOrLast(nodes, i) :: nodes[i]
  }

  /** A choice of one listing, the first or the last, for every name. */
  predicate Chosen(nodes: seq<PackageNode>, entered: map<string, PackageNode>) {
    entered.Keys == Names(nodes) && forall u :: u in entered ==> entered[u].name == u && entered[u] in Listings(nodes)
  }

  /** The edges between known packages, by the listings that were entered. */
  function EntryEdges(known: set<string>, entered: map<string, PackageNode>): set<Edge> {
    set u, d | u in entered && d in entered[u].dependencies && d in known :: (u, d)
  }

  /** When no name stands for two packages, there is one choice and one graph. */
  lemma OneGraph(nodes: seq<PackageNode>, entered: map<string, PackageNode>)
    requires Consistent(nodes) && Chosen(nodes, entered)
    ensures EntryEdges(Names(nodes), entered) == Edges(nodes)
  {
    forall n | n in nodes ensures n.name in entered && entered[n.name] == n {
      assert n.name in Names(nodes);
      assert entered[n.name] in nodes;
    }
    forall e ensures e in EntryEdges(Names(nodes), entered) <==> e in Edges(nodes) {
      if e in EntryEdges(Names(nodes), entered) {
        assert entered[e.0] in nodes && e == (entered[e.0].name, e.1);
      }
    }
  }

  // --- Graph theory ------------------------------------------------------

  ghost predicate IsPath(edges: set<Edge>, p: seq<string>) {
    forall i :: 0 <= i < |p| - 1 ==> (p[i], p[i + 1]) in edges
  }

  ghost predicate IsCycle(edges: set<Edge>, p: seq<string>) {
    |p| >= 2 && p[0] == p[|p| - 1] && IsPath(edges, p)
  }

  ghost predicate Acyclic(edges: set<Edge>) {
    forall p: seq<string> :: !IsCycle(edges, p)
  }

  /** Some cycle runs through the edge. */
  ghost predicate OnCycle(edges: set<Edge>, e: Edge) {
    exists p: seq<string> :: IsCycle(edges, p) && p[0] == e.0 && p[1] == e.1
  }

  /** A numbering that every edge decreases. */
  ghost predicate Descends(edges: set<Edge>, rank: map<string, nat>) {
    forall e :: e in edges ==> e.0 in rank && e.1 in rank && rank[e.1] < rank[e.0]
  }

  lemma {:induction false} PathDescends(edges: set<Edge>, rank: map<string, nat>, p: seq<string>)
    requires Descends(edges, rank) && IsPath(edges, p) && |p| >= 2
    ensures p[0] in rank && p[|p| - 1] in rank && rank[p[|p| - 1]] < rank[p[0]]
  {
    assert (p[0], p[1]) in edges;
    if |p| > 2 {
      var tail := p[1..];
      assert forall i :: 0 <= i < |tail| - 1 ==> (tail[i], tail[i + 1]) == (p[i + 1], p[i + 2]);
      PathDescends(edges, rank, tail);
    }
  }

  lemma DescendingIsAcyclic(edges: set<Edge>, rank: map<string, nat>)
    requires Descends(edges, rank)
    ensures Acyclic(edges)
  {
    forall p: seq<string> ensures !IsCycle(edges, p) {
      if IsCycle(edges, p) {
        PathDescends(edges, rank, p);
      }
    }
  }

  /** A path from `v` back to `u` closes the edge `(u, v)` into a cycle. */
  lemma BackEdgeOnCycle(edges: set<Edge>, stack: seq<string>, k: nat, e: Edge)
    requires k < |stack| && IsPath(edges, stack)
    requires e in edges && e.0 == stack[|stack| - 1] && e.1 == stack[k]
    ensures OnCycle(edges, e)
  {
    var p := [e.0] + stack[k..];
    assert forall i :: 0 <= i < |p| - 1 ==> (p[i], p[i + 1]) in edges;
    assert IsCycle(edges, p) && p[1] == e.1;
  }

  lemma PathExtends(edges: set<Edge>, p: seq<string>, v: string)
    requires IsPath(edges, p) && (p != [] ==> (p[|p| - 1], v) in edges)
    ensures IsPath(edges, p + [v])
  {
  }

  lemma PathShortens(edges: set<Edge>, p: seq<string>)
    requires IsPath(edges, p) && p != []
    ensures IsPath(edges, p[..|p| - 1])
  {
  }

  // --- The walk ------------------------------------------------------------

  lemma PathInMore(edges: set<Edge>, edges': set<Edge>, p: seq<string>)
    requires IsPath(edges, p) && edges <= edges'
    ensures IsPath(edges', p)
  {
  }

  lemma CycleInMore(edges: set<Edge>, edges': set<Edge>, e: Edge)
    requires OnCycle(edges, e) && edges <= edges'
    ensures OnCycle(edges', e)
  {
    var p: seq<string> :| IsCycle(edges, p) && p[0] == e.0 && p[1] == e.1;
    PathInMore(edges, edges', p);
  }

  predicate DependsOn(known: set<string>, entered: map<string, PackageNode>, e: Edge) {
    e.0 in entered && e.1 in known && e.1 in entered[e.0].dependencies
  }

  /** The edges of the listings entered so far. */
  ghost predicate Seen(known: set<string>, entered: map<string, PackageNode>, edges: set<Edge>) {
    forall e :: e in edges <==> DependsOn(known, entered, e)
  }

  lemma SeenIsEntryEdges(known: set<string>, entered: map<string, PackageNode>, edges: set<Edge>)
    requires Seen(known, entered, edges)
    ensures edges == EntryEdges(known, entered)
  {
    forall e ensures e in edges <==> e in EntryEdges(known, entered) {
      assert e == (e.0, e.1);
    }
  }

  /** Every name stands for one of its listings. */
  ghost predicate Listed(listings: set<PackageNode>, entered: map<string, PackageNode>) {
    forall u :: u in entered ==> entered[u].name == u && entered[u] in listings
  }

  lemma EntryAdds(known: set<string>, entered: map<string, PackageNode>, edges: set<Edge>, node: PackageNode)
    returns (more: set<Edge>)
    requires Seen(known, entered, edges) && node.name !in entered
    ensures Seen(known, entered[node.name := node], more) && edges <= more
    ensures forall e :: e in more && e.0 != node.name ==> e in edges
  {
    more := EntryEdges(known, entered[node.name := node]);
    forall e ensures e in more <==> DependsOn(known, entered[node.name := node], e) {
      assert e == (e.0, e.1);
    }
    forall e | e in edges ensures e in more {
      assert DependsOn(known, entered, e);
    }
    forall e | e in more && e.0 != node.name ensures e in edges {
      assert DependsOn(known, entered, e);
    }
  }

  /** Every report is an edge on a cycle. */
  ghost predicate Reported(edges: set<Edge>, circular: seq<Edge>) {
    forall e :: e in circular ==> e in edges && OnCycle(edges, e)
  }

  lemma ReportedInMore(edges: set<Edge>, edges': set<Edge>, circular: seq<Edge>)
    requires Reported(edges, circular) && edges <= edges'
    ensures Reported(edges', circular)
  {
    forall e | e in circular ensures OnCycle(edges', e) {
      CycleInMore(edges, edges', e);
    }
  }

  /** An edge out of a finished package is reported, or leads to one finished earlier. */
  ghost predicate Settled(edges: set<Edge>, circular: seq<Edge>, finish: map<string, nat>, clock: nat) {
    && (forall x :: x in finish ==> finish[x] < clock)
    && forall e :: e in edges && e.0 in finish && e !in circular ==>
         e.1 in finish && finish[e.1] < finish[e.0]
  }

  lemma SettlesNext(edges: set<Edge>, circular: seq<Edge>, finish: map<string, nat>, clock: nat, u: string)
    requires Settled(edges, circular, finish, clock) && u !in finish
    requires forall e :: e in edges && e.0 == u ==> e in circular || e.1 in finish
    ensures Settled(edges, circular, finish[u := clock], clock + 1)
  {
  }

  lemma EntrySettles(
    edges: set<Edge>, more: set<Edge>, circular: seq<Edge>, finish: map<string, nat>, clock: nat, name: string)
    requires Settled(edges, circular, finish, clock) && name !in finish
    requires forall e :: e in more && e.0 != name ==> e in edges
    ensures Settled(more, circular, finish, clock)
  {
  }

  /** What is visited has been entered with one of its listings, and the edges are theirs. */
  ghost predicate Entries(
    nodeMap: map<string, PackageNode>, listings: set<PackageNode>, visited: set<string>,
    entered: map<string, PackageNode>, edges: set<Edge>)
  {
    && Listed(listings, nodeMap) && Listed(listings, entered)
    && visited == entered.Keys && visited <= nodeMap.Keys
    && Seen(nodeMap.Keys, entered, edges)
  }

  /** recStack is the current path, and what is visited is either on it or finished. */
  ghost predicate OnPath(
    edges: set<Edge>, visited: set<string>, recStack: set<string>, stack: seq<string>, finish: map<string, nat>)
  {
    && (forall x :: x in recStack <==> x in stack)
    && IsPath(edges, stack)
    && visited == recStack + finish.Keys
    && recStack !! finish.Keys
  }

  predicate OnTop(stack: seq<string>, name: string) {
    stack != [] && stack[|stack| - 1] == name
  }

  lemma PathEnters(
    edges: set<Edge>, edges': set<Edge>, visited: set<string>, recStack: set<string>, stack: seq<string>,
    finish: map<string, nat>, name: string)
    requires OnPath(edges, visited, recStack, stack, finish) && name !in visited && edges <= edges'
    requires stack != [] ==> (stack[|stack| - 1], name) in edges
    ensures OnPath(edges', visited + {name}, recStack + {name}, stack + [name], finish)
    ensures name !in recStack && OnTop(stack + [name], name)
  {
    PathExtends(edges, stack, name);
    PathInMore(edges, edges', stack + [name]);
  }

  lemma PathLeaves(
    edges: set<Edge>, visited: set<string>, recStack: set<string>, stack: seq<string>, finish: map<string, nat>,
    name: string, clock: nat)
    requires OnPath(edges, visited, recStack, stack, finish) && stack != [] && stack[|stack| - 1] == name
    requires name !in stack[..|stack| - 1]
    ensures OnPath(edges, visited, recStack - {name}, stack[..|stack| - 1], finish[name := clock])
    ensures name !in finish
  {
    PathShortens(edges, stack);
    var below := stack[..|stack| - 1];
    assert stack == below + [name];
    assert name in recStack;
    assert visited == (recStack - {name}) + finish[name := clock].Keys;
  }

  predicate Extends(before: map<string, PackageNode>, after: map<string, PackageNode>) {
    forall u :: u in before ==> u in after && after[u] == before[u]
  }

  lemma SeesDependency(
    known: set<string>, entered: map<string, PackageNode>, edges: set<Edge>, node: PackageNode, dep: string)
    requires Seen(known, entered, edges) && node.name in entered && entered[node.name] == node
    requires dep in node.dependencies && dep in known
    ensures (node.name, dep) in edges
  {
    assert DependsOn(known, entered, (node.name, dep));
  }

  lemma AllFollowed(
    known: set<string>, entered: map<string, PackageNode>, edges: set<Edge>, recStack: set<string>, m: Mark,
    node: PackageNode)
    requires Seen(known, entered, edges) && node.name in entered && entered[node.name] == node
    requires Handled(known, recStack, m, node.name, node.dependencies)
    ensures forall e :: e in edges && e.0 == node.name ==> e in m.circular || e.1 in m.finish
  {
    forall e | e in edges && e.0 == node.name ensures e in m.circular || e.1 in m.finish {
      assert DependsOn(known, entered, e) && e == (node.name, e.1);
    }
  }

  /** How often the item is in the sequence. */
  function Times<T(==)>(items: seq<T>, x: T): (n: nat)
    ensures n > 0 <==> x in items
  {
    if items == [] then 0
    else
      assert items == items[..|items| - 1] + [items[|items| - 1]];
      Times(items[..|items| - 1], x) + if items[|items| - 1] == x then 1 else 0
  }

  lemma TimesMore<T>(items: seq<T>, y: T, x: T)
    ensures Times(items + [y], x) == Times(items, x) + if x == y then 1 else 0
  {
    assert (items + [y])[..|items|] == items;
  }

  /** An edge that is reported is reported as often as its dependency is listed. */
  ghost predicate Counted(entered: map<string, PackageNode>, circular: seq<Edge>, names: set<string>) {
    forall e: Edge :: e.0 in names && e in circular ==>
      e.0 in entered && Times(circular, e) == Times(entered[e.0].dependencies, e.1)
  }

  /** So far, each dependency on the current path has been reported as often as it was listed. */
  ghost predicate ReportsOf(circular: seq<Edge>, recStack: set<string>, name: string, deps: seq<string>) {
    forall d: string :: Times(circular, (name, d)) == if d in recStack then Times(deps, d) else 0
  }

  ghost predicate KeepsCounts(before: seq<Edge>, after: seq<Edge>, names: set<string>) {
    forall e: Edge :: e.0 in names ==> Times(after, e) == Times(before, e)
  }

  lemma AllCounted(
    edges: set<Edge>, entered: map<string, PackageNode>, circular: seq<Edge>, names: set<string>)
    requires Reported(edges, circular) && Counted(entered, circular, names)
    requires forall e :: e in edges ==> e.0 in names
    ensures forall e :: e in circular ==>
              e.0 in entered && Times(circular, e) == Times(entered[e.0].dependencies, e.1)
  {
  }

  lemma CountsEnter(
    entered: map<string, PackageNode>, circular: seq<Edge>, finish: map<string, nat>, name: string, node: PackageNode)
    requires Counted(entered, circular, finish.Keys) && name !in finish
    ensures Counted(entered[name := node], circular, finish.Keys)
  {
  }

  lemma CountsMore(entered: map<string, PackageNode>, circular: seq<Edge>, finish: map<string, nat>, e: Edge)
    requires Counted(entered, circular, finish.Keys) && e.0 !in finish
    ensures Counted(entered, circular + [e], finish.Keys)
  {
    forall d: Edge | d.0 in finish ensures Times(circular + [e], d) == Times(circular, d) {
      TimesMore(circular, e, d);
    }
  }

  lemma CountsNext(
    entered: map<string, PackageNode>, circular: seq<Edge>, finish: map<string, nat>, recStack: set<string>,
    name: string, clock: nat)
    requires Counted(entered, circular, finish.Keys) && name in entered
    requires ReportsOf(circular, recStack, name, entered[name].dependencies)
    ensures Counted(entered, circular, finish[name := clock].Keys)
  {
    forall e: Edge | e.0 == name && e in circular
      ensures Times(circular, e) == Times(entered[name].dependencies, e.1)
    {
      assert e == (name, e.1) && Times(circular, e) > 0;
    }
  }

  /** A package that has not been entered has no reports. */
  lemma NoReportsYet(
    known: set<string>, entered: map<string, PackageNode>, edges: set<Edge>, circular: seq<Edge>, recStack: set<string>,
    name: string)
    requires Seen(known, entered, edges) && Reported(edges, circular) && name !in entered
    ensures ReportsOf(circular, recStack, name, [])
  {
    forall d: string ensures (name, d) !in circular {
      assert !DependsOn(known, entered, (name, d));
    }
  }

  /** What the walk has come to. */
  datatype Mark = Mark(
    visited: set<string>, circular: seq<Edge>, finish: map<string, nat>, entered: map<string, PackageNode>)

  /** The walk has gone on, with no more reports about these packages. */
  ghost predicate Grown(before: Mark, after: Mark, names: set<string>) {
    && before.visited <= after.visited && before.circular <= after.circular
    && before.finish.Keys <= after.finish.Keys && Extends(before.entered, after.entered)
    && KeepsCounts(before.circular, after.circular, names)
  }

  lemma GrownTwice(a: Mark, b: Mark, c: Mark, names: set<string>)
    requires Grown(a, b, names) && Grown(b, c, names)
    ensures Grown(a, c, names)
  {
  }

  /** These dependencies of a package have been looked at. */
  ghost predicate Handled(known: set<string>, recStack: set<string>, m: Mark, name: string, deps: seq<string>) {
    && ReportsOf(m.circular, recStack, name, deps)
    && forall d :: d in deps && d in known ==> (name, d) in m.circular || d in m.finish
  }

  /** What one dependency adds to the reports. */
  function Back(recStack: set<string>, name: string, dep: string): seq<Edge> {
    if dep in recStack then [(name, dep)] else []
  }

  lemma BackIs(circular: seq<Edge>, recStack: set<string>, name: string, dep: string)
    ensures circular + Back(recStack, name, dep) == if dep in recStack then circular + [(name, dep)] else circular
  {
  }

  lemma BackCounts(circular: seq<Edge>, recStack: set<string>, name: string, dep: string, e: Edge)
    ensures Times(circular + Back(recStack, name, dep), e)
         == Times(circular, e) + if dep in recStack && e == (name, dep) then 1 else 0
  {
    if dep in recStack {
      TimesMore(circular, (name, dep), e);
    } else {
      assert circular + [] == circular;
    }
  }

  /** One more dependency has been looked at. */
  lemma HandledNext(
    known: set<string>, recStack: set<string>, before: Mark, after: Mark, name: string, deps: seq<string>, dep: string)
    requires Handled(known, recStack, before, name, deps) && name in recStack && Grown(before, after, {})
    requires KeepsCounts(before.circular + Back(recStack, name, dep), after.circular, recStack)
    requires dep in known ==> (name, dep) in after.circular || dep in after.finish
    ensures Handled(known, recStack, after, name, deps + [dep]) && Grown(before, after, recStack - {name})
  {
    forall e: Edge | e.0 in recStack
      ensures Times(after.circular, e)
           == Times(before.circular, e) + if dep in recStack && e == (name, dep) then 1 else 0
    {
      BackCounts(before.circular, recStack, name, dep, e);
    }
    forall d: string ensures Times(after.circular, (name, d)) == if d in recStack then Times(deps + [dep], d) else 0 {
      assert (name, d).0 == name;
      TimesMore(deps, dep, d);
    }
  }

  lemma Turn(deps: seq<string>, i: nat)
    requires i < |deps|
    ensures deps[..i + 1] == deps[..i] + [deps[i]] && deps[i] in deps
  {
  }

  lemma Turns(deps: seq<string>)
    ensures deps[..0] == [] && deps[..|deps|] == deps
  {
  }

  class Walk {
    const nodeMap: map<string, PackageNode>
    var visited: set<string>
    var recStack: set<string>
    var circular: seq<Edge>
    ghost const listings: set<PackageNode>
    ghost var entered: map<string, PackageNode>
    ghost var edges: set<Edge>
    ghost var stack: seq<string>
    ghost var finish: map<string, nat>
    ghost var clock: nat

    ghost predicate Valid()
      reads this
    {
      && Entries(nodeMap, listings, visited, entered, edges)
      && OnPath(edges, visited, recStack, stack, finish)
      && Settled(edges, circular, finish, clock)
      && Reported(edges, circular)
      && Counted(entered, circular, finish.Keys)
    }

    ghost function Now(): Mark
      reads this
    {
      Mark(visited, circular, finish, entered)
    }

    constructor (nodeMap: map<string, PackageNode>, ghost listings: set<PackageNode>)
      requires Listed(listings, nodeMap)
      ensures Valid() && stack == [] && visited == {}
      ensures this.nodeMap == nodeMap && this.listings == listings
    {
      this.nodeMap, this.listings := nodeMap, listings;
      visited, recStack, circular := {}, {}, [];
      entered, edges, stack, finish, clock := map[], {}, [], map[], 0;
    }

    /** Entering a package puts it on the current path. */
    method Enter(node: PackageNode)
      requires Valid() && node.name in nodeMap && node.name !in visited && node in listings
      requires stack != [] ==> (stack[|stack| - 1], node.name) in edges
      modifies this
      ensures Valid()
      ensures visited == old(visited) + {node.name} && stack == old(stack) + [node.name]
      ensures recStack == old(recStack) + {node.name} && node.name !in old(recStack) && OnTop(stack, node.name)
      ensures circular == old(circular) && finish == old(finish)
      ensures entered == old(entered)[node.name := node] && old(edges) <= edges
      ensures ReportsOf(circular, recStack, node.name, [])
    {
      NoReportsYet(nodeMap.Keys, entered, edges, circular, recStack + {node.name}, node.name);
      CountsEnter(entered, circular, finish, node.name, node);
      ghost var more := EntryAdds(nodeMap.Keys, entered, edges, node);
      PathEnters(edges, more, visited, recStack, stack, finish, node.name);
      ReportedInMore(edges, more, circular);
      EntrySettles(edges, more, circular, finish, clock, node.name);
      visited := visited + {node.name};
      recStack := recStack + {node.name};
      stack := stack + [node.name];
      entered, edges := entered[node.name := node], more;
    }

    /** Reporting an edge back into the current path. */
    method Report(name: string, dep: string)
      requires Valid() && (name, dep) in edges
      requires OnTop(stack, name) && dep in recStack
      modifies this`circular
      ensures Valid()
      ensures circular == old(circular) + [(name, dep)] && (name, dep) in circular && old(circular) <= circular
    {
      ghost var k :| 0 <= k < |stack| && stack[k] == dep;
      BackEdgeOnCycle(edges, stack, k, (name, dep));
      CountsMore(entered, circular, finish, (name, dep));
      circular := circular + [(name, dep)];
    }

    /** Leaving a package all of whose dependencies are settled. */
    method Leave(name: string)
      requires Valid()
      requires stack != [] && stack[|stack| - 1] == name && name !in stack[..|stack| - 1]
      requires forall e :: e in edges && e.0 == name ==> e in circular || e.1 in finish
      requires name in entered && ReportsOf(circular, recStack, name, entered[name].dependencies)
      modifies this`recStack, this`stack, this`finish, this`clock
      ensures Valid()
      ensures stack == old(stack)[..|old(stack)| - 1] && finish.Keys == old(finish).Keys + {name}
      ensures recStack == old(recStack) - {name}
    {
      PathLeaves(edges, visited, recStack, stack, finish, name, clock);
      SettlesNext(edges, circular, finish, clock, name);
      CountsNext(entered, circular, finish, recStack, name, clock);
      recStack := recStack - {name};
      stack := stack[..|stack| - 1];
      finish, clock := finish[name := clock], clock + 1;
    }

    /** One turn of the loop over the dependencies of the package on top of the path. */
    method Follow(node: PackageNode, dep: string)
      requires Valid() && dep in node.dependencies
      requires OnTop(stack, node.name) && node.name in entered && entered[node.name] == node
      modifies this
      ensures Valid() && stack == old(stack) && recStack == old(recStack)
      ensures Grown(old(Now()), Now(), {})
      ensures dep in nodeMap ==> (node.name, dep) in circular || dep in finish
      ensures KeepsCounts(old(circular) + Back(recStack, node.name, dep), circular, recStack)
      decreases nodeMap.Keys - visited, 1
    {
      if dep in nodeMap {
        SeesDependency(nodeMap.Keys, entered, edges, node, dep);
      }
      BackIs(circular, recStack, node.name, dep);
      if dep !in visited {
        if dep in nodeMap {
          Dfs(nodeMap[dep]);
        }
      } else if dep in recStack {
        Report(node.name, dep);
      }
    }

    /** The loop over the dependencies of the package on top of the path. */
    method FollowAll(node: PackageNode)
      requires Valid() && Handled(nodeMap.Keys, recStack, Now(), node.name, [])
      requires OnTop(stack, node.name) && node.name in entered && entered[node.name] == node
      modifies this
      ensures Valid() && stack == old(stack) && recStack == old(recStack)
      ensures Grown(old(Now()), Now(), recStack - {node.name})
      ensures Handled(nodeMap.Keys, recStack, Now(), node.name, node.dependencies)
      decreases nodeMap.Keys - visited, 2
    {
      Turns(node.dependencies);
      for i := 0 to |node.dependencies|
        invariant Valid() && stack == old(stack) && recStack == old(recStack)
        invariant Grown(old(Now()), Now(), recStack - {node.name})
        invariant Handled(nodeMap.Keys, recStack, Now(), node.name, node.dependencies[..i])
      {
        ghost var before := Now();
        Turn(node.dependencies, i);
        Follow(node, node.dependencies[i]);
        HandledNext(
          nodeMap.Keys, recStack, before, Now(), node.name, node.dependencies[..i], node.dependencies[i]);
        GrownTwice(old(Now()), before, Now(), recStack - {node.name});
      }
    }

    method Dfs(node: PackageNode)
      requires Valid()
      requires node.name in nodeMap && node in listings && node.name !in visited
      requires stack != [] ==> (stack[|stack| - 1], node.name) in edges
      modifies this
      ensures Valid() && stack == old(stack) && recStack == old(recStack)
      ensures Grown(old(Now()), Now(), recStack)
      ensures node.name in finish && node.name in visited
      decreases nodeMap.Keys - visited, 0
    {
      Enter(node);
      assert node.name in old(nodeMap.Keys - visited) && node.name !in nodeMap.Keys - visited;
      FollowAll(node);
      AllFollowed(nodeMap.Keys, entered, edges, recStack, Now(), node);
      Leave(node.name);
    }

    /** The loop over all packages. */
    method DfsAll(nodes: seq<PackageNode>)
      requires Valid() && stack == [] && visited == {}
      requires forall n :: n in nodes ==> n.name in nodeMap
      requires Listings(nodes) <= listings
      modifies this
      ensures Valid() && stack == []
      ensures forall j :: 0 <= j < |nodes| ==> nodes[j].name in visited
    {
      for i := 0 to |nodes|
        invariant Valid() && stack == []
        invariant forall j :: 0 <= j < i ==> nodes[j].name in visited
        invariant forall u :: u in visited ==> u in nodeMap
      {
        if nodes[i].name !in visited {
          assert FirstOrLast(nodes, i);
          Dfs(nodes[i]);
        }
      }
    }
  }

  /** The lookup map: every name with its last listing. */
  method NodeMap(nodes: seq<PackageNode>) returns (nodeMap: map<string, PackageNode>)
    ensures nodeMap.Keys == Names(nodes)
    ensures forall u :: u in nodeMap ==> exists i :: IsLast(nodes, i, u) && nodeMap[u] == nodes[i]
    ensures forall u :: u in nodeMap ==> nodeMap[u].name == u && nodeMap[u] in Listings(nodes)
  {
    nodeMap := map[];
    for i := 0 to |nodes|
      invariant nodeMap.Keys == Names(nodes[..i])
      invariant forall u :: u in nodeMap ==> exists k :: IsLast(nodes[..i], k, u) && nodeMap[u] == nodes[k]
    {
      LastOfMore(nodes, i);
      nodeMap := nodeMap[nodes[i].name := nodes[i]];
    }
    assert nodes[..|nodes|] == nodes;
    forall u | u in nodeMap ensures nodeMap[u].name == u && nodeMap[u] in Listings(nodes) {
      var i :| IsLast(nodes, i, u) && nodeMap[u] == nodes[i];
      assert FirstOrLast(nodes, i);
    }
  }

  predicate IsLast(nodes: seq<PackageNode>, i: int, name: string) {
    0 <= i < |nodes| && nodes[i].name == name && forall j :: i < j < |nodes| ==> nodes[j].name != name
  }

  /** The last listings when one more is looked at. */
  lemma LastOfMore(nodes: seq<PackageNode>, i: nat)
    requires i < |nodes|
    ensures Names(nodes[..i + 1]) == Names(nodes[..i]) + {nodes[i].name}
    ensures IsLast(nodes[..i + 1], i, nodes[i].name)
    ensures forall k, u :: IsLast(nodes[..i], k, u) && u != nodes[i].name ==> IsLast(nodes[..i + 1], k, u)
  {
    assert nodes[..i + 1] == nodes[..i] + [nodes[i]];
  }

  /**
   * detectCircularDependencies: the reported edges are exactly what stands between the
   * graph and a topological order, and each of them is really on a cycle.  When a name is
   * listed twice, the graph is that of one of its listings, the first or the last.  An edge
   * is reported as often as that listing has the dependency: once, in a list without
   * repetitions.
   */
  method DetectCircularDependencies(nodes: seq<PackageNode>)
    returns (circular: seq<Edge>, ghost entered: map<string, PackageNode>)
    ensures Chosen(nodes, entered)
    ensures BreaksCycles(EntryEdges(Names(nodes), entered), circular)
    ensures Consistent(nodes) ==> BreaksCycles(Edges(nodes), circular)
    ensures forall e :: e in circular ==>
              e.0 in entered && Times(circular, e) == Times(entered[e.0].dependencies, e.1)
  {
    var nodeMap := NodeMap(nodes);
    var walk := new Walk(nodeMap, Listings(nodes));
    walk.DfsAll(nodes);
    circular, entered := walk.circular, walk.entered;
    WalkedAll(nodes, nodeMap, walk.visited, entered, walk.edges, walk.recStack, walk.finish);
    AllCounted(walk.edges, entered, circular, walk.finish.Keys);
    EmptyStackBreaksCycles(walk.edges, circular, walk.finish, walk.clock);
    if Consistent(nodes) {
      OneGraph(nodes, entered);
    }
  }

  /** With the path empty and every name visited, all are finished, and one listing of each was entered. */
  lemma WalkedAll(
    nodes: seq<PackageNode>, nodeMap: map<string, PackageNode>, visited: set<string>,
    entered: map<string, PackageNode>, edges: set<Edge>, recStack: set<string>, finish: map<string, nat>)
    requires nodeMap.Keys == Names(nodes) && Entries(nodeMap, Listings(nodes), visited, entered, edges)
    requires OnPath(edges, visited, recStack, [], finish)
    requires forall j :: 0 <= j < |nodes| ==> nodes[j].name in visited
    ensures Chosen(nodes, entered) && edges == EntryEdges(Names(nodes), entered)
    ensures forall e :: e in edges ==> e.0 in finish
  {
    forall n | n in nodes ensures n.name in visited {
    }
    assert visited == Names(nodes);
    assert recStack == {};
    SeenIsEntryEdges(nodeMap.Keys, entered, edges);
    forall e | e in edges ensures e.0 in finish {
      assert DependsOn(nodeMap.Keys, entered, e);
    }
  }

  /** Without the reported edges the graph is acyclic, each lies on a cycle, and none means there is none. */
  ghost predicate BreaksCycles(edges: set<Edge>, circular: seq<Edge>) {
    && Acyclic(edges - (set e | e in circular))
    && (forall e :: e in circular ==> e in edges && OnCycle(edges, e))
    && (circular == [] <==> Acyclic(edges))
  }

  lemma EmptyStackBreaksCycles(edges: set<Edge>, circular: seq<Edge>, finish: map<string, nat>, clock: nat)
    requires Settled(edges, circular, finish, clock) && Reported(edges, circular)
    requires forall e :: e in edges ==> e.0 in finish
    ensures BreaksCycles(edges, circular)
  {
    DescendingIsAcyclic(edges - (set e | e in circular), finish);
    if circular == [] {
      assert edges - (set e | e in circular) == edges;
    } else {
      assert OnCycle(edges, circular[0]);
    }
  }
}
