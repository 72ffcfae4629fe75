/** The infrastructure knowledge graph: typed nodes, directed labelled edges, and two searches. */
module TopologyGraph {
  import opened Text
  import opened Walks

  datatype NodeType = Server | Service | Port | Database | ReverseProxy | Container | ApiRoute
  datatype Relation = ListensOn | ReverseProxies | ConnectsTo | DependsOn | HostedOn | ContainedIn
  datatype NodeStatus = Healthy | Degraded | Down | Unknown

  datatype TopologyNode = TopologyNode(id: string, name: string, kind: NodeType, status: NodeStatus)
  datatype TopologyEdge = TopologyEdge(source: string, target: string, relation: Relation)

  datatype BlastRadius = BlastRadius(
    root: string,
    impacted: seq<TopologyNode>,
    paths: seq<seq<string>>,
    trails: seq<Trail>,
    maxDepthReached: nat,
    criticalCount: nat)

  /** The relations along a path, and the path written out with them. */
  datatype Trail = Trail(relations: seq<Relation>, text: string)

  predicate Propagates(e: TopologyEdge) {
    e.relation.DependsOn? || e.relation.ConnectsTo? || e.relation.ReverseProxies?
  }

  predicate IsCritical(n: TopologyNode) {
    n.kind.ReverseProxy? || n.kind.Database? || n.kind.Service?
  }

  /** The stored edges as directed links. */
  function Arrows(edges: seq<TopologyEdge>): set<Link> {
    set e | e in edges :: (e.source, e.target)
  }

  /** The edges failures travel along, in both directions. */
  function Couplings(edges: seq<TopologyEdge>): set<Link> {
    (set e | e in edges && Propagates(e) :: (e.source, e.target)) +
    (set e | e in edges && Propagates(e) :: (e.target, e.source))
  }

  /** A dependency leads from the source of a stored edge to its target. */
  lemma ArrowsOnEdges(edges: seq<TopologyEdge>, a: string, b: string)
    ensures (a, b) in Arrows(edges) <==> exists e :: e in edges && e.source == a && e.target == b
  {
  }

  /** Failures travel along stored edges of three relations, either way. */
  lemma CouplingsOnEdges(edges: seq<TopologyEdge>, a: string, b: string)
    ensures (a, b) in Couplings(edges) <==>
            exists e :: e in edges && (e.relation == DependsOn || e.relation == ConnectsTo
                                       || e.relation == ReverseProxies)
                        && ((e.source == a && e.target == b) || (e.source == b && e.target == a))
  {
  }

  function Ids(edges: seq<TopologyEdge>): set<string> {
    (set e | e in edges :: e.source) + (set e | e in edges :: e.target)
  }

  /** Reverse proxies, databases and services are critical, nothing else is. */
  lemma CriticalOnKinds(n: TopologyNode)
    ensures IsCritical(n) <==> n.kind == ReverseProxy || n.kind == Database || n.kind == Service
    ensures !IsCritical(n) <==> n.kind == Server || n.kind == Port || n.kind == Container || n.kind == ApiRoute
  {
  }

  /** `edges.filter(keep)`. */
  function Filter(edges: seq<TopologyEdge>, keep: TopologyEdge -> bool): (r: seq<TopologyEdge>)
    ensures forall e :: e in r <==> e in edges && keep(e)
  {
    if edges == [] then []
    else if keep(edges[0]) then [edges[0]] + Filter(edges[1..], keep)
    else Filter(edges[1..], keep)
  }

  function CountCritical(ns: seq<TopologyNode>): nat {
    if ns == [] then 0
    else CountCritical(ns[..|ns| - 1]) + (if IsCritical(ns[|ns| - 1]) then 1 else 0)
  }

  /** The registered nodes a failure of `root` reaches within `k` hops. */
  ghost predicate Impacted(nodes: map<string, TopologyNode>, edges: seq<TopologyEdge>, root: string, k: int,
                           id: string) {
    id in nodes && id != root && Within(Couplings(edges), root, id, k)
  }

  ghost predicate Keyed(nodes: map<string, TopologyNode>) {
    forall id :: id in nodes ==> nodes[id].id == id
  }

  ghost predicate DistinctIds(ns: seq<TopologyNode>) {
    forall i, j :: 0 <= i < j < |ns| ==> ns[i].id != ns[j].id
  }

  ghost predicate ByDistance(g: set<Link>, root: string, ns: seq<TopologyNode>) {
    forall i, j, d: nat, e: nat ::
      0 <= i < j < |ns| && Distance(g, root, ns[i].id, d) && Distance(g, root, ns[j].id, e) ==> d <= e
  }

  /** One shortest walk to every node within reach, registered or not, and no other. */
  ghost predicate PathsTo(g: set<Link>, root: string, maxDepth: int, paths: seq<seq<string>>) {
    && (forall i :: 0 <= i < |paths| ==>
                      && 1 < |paths[i]| <= maxDepth + 1
                      && Walk(g, root, paths[i][|paths[i]| - 1], paths[i])
                      && Distance(g, root, paths[i][|paths[i]| - 1], |paths[i]| - 1))
    && (forall i, j :: 0 <= i < j < |paths| && |paths[i]| > 0 && |paths[j]| > 0 ==>
                         paths[i][|paths[i]| - 1] != paths[j][|paths[j]| - 1])
    && (forall id :: id != root && Within(g, root, id, maxDepth) ==>
                       exists i :: 0 <= i < |paths| && |paths[i]| > 0 && paths[i][|paths[i]| - 1] == id)
  }

  function RelationName(r: Relation): string {
    match r
    case ListensOn => "LISTENS_ON"
    case ReverseProxies => "REVERSE_PROXIES"
    case ConnectsTo => "CONNECTS_TO"
    case DependsOn => "DEPENDS_ON"
    case HostedOn => "HOSTED_ON"
    case ContainedIn => "CONTAINED_IN"
  }

  function Hop(relation: Relation, id: string): string {
    " -> (" + RelationName(relation) + ") -> " + id
  }

  /** A stored edge of this relation that failures travel along joins `a` and `b`. */
  ghost predicate Joined(edges: seq<TopologyEdge>, a: string, b: string, relation: Relation) {
    exists e :: e in edges && Propagates(e) && e.relation == relation
                && ((e.source == a && e.target == b) || (e.source == b && e.target == a))
  }

  /** The path as text, each hop with its relation. */
  function ImpactText(path: seq<string>, relations: seq<Relation>): string
    requires |path| == |relations| + 1
  {
    var n := |relations|;
    if n == 0 then path[0] else ImpactText(path[..n], relations[..n - 1]) + Hop(relations[n - 1], path[n])
  }

  /** A path is written out hop by hop, each with the name of its relation. */
  lemma TextOnHops(path: seq<string>, relations: seq<Relation>, r: Relation, name: string, id: string)
    requires |path| == |relations| + 1
    requires (r == DependsOn && name == "DEPENDS_ON") || (r == ConnectsTo && name == "CONNECTS_TO")
             || (r == ReverseProxies && name == "REVERSE_PROXIES")
    ensures relations == [] ==> ImpactText(path, relations) == path[0]
    ensures ImpactText(path + [id], relations + [r])
         == ImpactText(path, relations) + (" -> (" + name + ") -> " + id)
  {
    var n := |relations|;
    assert (path + [id])[..n + 1] == path && (relations + [r])[..n] == relations;
  }

  /** Every hop is over a stored edge of the relation named, and the text says so. */
  ghost predicate TrailFits(edges: seq<TopologyEdge>, path: seq<string>, trail: Trail) {
    && |path| == |trail.relations| + 1
    && (forall i :: 0 <= i < |trail.relations| ==> Joined(edges, path[i], path[i + 1], trail.relations[i]))
    && trail.text == ImpactText(path, trail.relations)
  }

  ghost predicate TrailsFit(edges: seq<TopologyEdge>, paths: seq<seq<string>>, trails: seq<Trail>) {
    |trails| == |paths| && forall i :: 0 <= i < |paths| ==> TrailFits(edges, paths[i], trails[i])
  }

  /** The greatest distance, up to the limit, at which there is any node. */
  ghost predicate Reach(g: set<Link>, root: string, maxDepth: int, reached: nat) {
    && (exists id :: Distance(g, root, id, reached))
    && (reached == 0 || reached <= maxDepth)
    && (forall id, d: nat :: Distance(g, root, id, d) && d <= maxDepth ==> d <= reached)
  }

  /** What a blast radius has to say about a graph. */
  ghost predicate IsBlastRadius(nodes: map<string, TopologyNode>, edges: seq<TopologyEdge>, root: string,
                                maxDepth: int, r: BlastRadius) {
    var g := Couplings(edges);
    && r.root == root
    && (forall n :: n in r.impacted <==> Impacted(nodes, edges, root, maxDepth, n.id) && nodes[n.id] == n)
    && DistinctIds(r.impacted) && ByDistance(g, root, r.impacted)
    && r.criticalCount == |set n | n in r.impacted && IsCritical(n)|
    && PathsTo(g, root, maxDepth, r.paths) && TrailsFit(edges, r.paths, r.trails)
    && Reach(g, root, maxDepth, r.maxDepthReached)
  }

  datatype ChainEntry = ChainEntry(current: string, path: seq<string>)
  datatype BlastEntry = BlastEntry(nodeId: string, depth: nat, path: seq<string>, trail: Trail)

  class SystemTopologyGraph {
    var nodes: map<string, TopologyNode>
    var edges: seq<TopologyEdge>

    /** Nodes are stored under their own id, and no edge is stored twice. */
    ghost predicate Valid()
      reads this
    {
      && Keyed(nodes)
      && (forall i, j :: 0 <= i < j < |edges| ==> edges[i] != edges[j])
    }

    lemma NodesKeyed()
      requires Valid()
      ensures Keyed(nodes)
    {
    }

    constructor ()
      ensures Valid() && nodes == map[] && edges == []
    {
      nodes, edges := map[], [];
    }

    method AddNode(node: TopologyNode)
      requires Valid()
      modifies this
      ensures Valid() && nodes == old(nodes)[node.id := node] && edges == old(edges)
    {
      nodes := nodes[node.id := node];
    }

    method AddEdge(edge: TopologyEdge)
      requires Valid()
      modifies this
      ensures Valid() && nodes == old(nodes)
      ensures edges == if edge in old(edges) then old(edges) else old(edges) + [edge]
    {
      if edge !in edges {
        edges := edges + [edge];
      }
    }

    /** A shortest chain of stored edges, or nothing exactly when there is no chain at all. */
    method FindDependencyChain(fromId: string, toId: string) returns (r: Option<seq<string>>)
      ensures r.Some? ==> Walk(Arrows(edges), fromId, toId, r.value)
      ensures r.Some? ==> forall p :: Walk(Arrows(edges), fromId, toId, p) ==> |r.value| <= |p|
      ensures r.None? ==> forall p :: !Walk(Arrows(edges), fromId, toId, p)
    {
      hide *;
      ghost var g := Arrows(edges);
      WalkStart(g, fromId);
      if fromId == toId {
        ShortestWalk(g, fromId, toId, 0);
        return Some([fromId]);
      }
      var visited := {fromId};
      var queue := [ChainEntry(fromId, [fromId])];
      ghost var order, head := [Found(fromId, 0)], 0;
      StartSearch(g, fromId, None);
      StartWaiting(g, fromId);
      while |queue| > 0
        invariant visited <= Ids(edges) + {fromId} && toId !in visited
        invariant Discovered(g, fromId, order, visited) && Closed(g, order, head, None, visited)
        invariant Waiting(g, fromId, order, head, queue)
        decreases Ids(edges) + {fromId} - visited, |queue|
      {
        var ChainEntry(current, path) := queue[0];
        TakeFirst(g, fromId, order, head, queue, visited);
        queue := queue[1..];
        var nextEdges := Filter(edges, (e: TopologyEdge) => e.source == current);
        ghost var before, seen, waiting, d := order, visited, |queue|, order[head].level;
        var k := 0;
        while k < |nextEdges|
          invariant 0 <= k <= |nextEdges|
          invariant seen <= visited <= Ids(edges) + {fromId} && toId !in visited
          invariant visited == seen ==> |queue| == waiting
          invariant before <= order && Discovered(g, fromId, order, visited)
          invariant Expanding(g, fromId, order, head, queue, d)
          invariant forall j :: 0 <= j < k ==> nextEdges[j].target in visited
        {
          var next := nextEdges[k].target;
          EdgeLinks(edges, nextEdges[k]);
          WalkStep(g, fromId, current, next, path);
          if next !in visited {
            NextLevel(g, fromId, before, seen, head, None, next);
          }
          if next == toId {
            ShortestWalk(g, fromId, toId, d + 1);
            return Some(path + [next]);
          }
          if next !in visited {
            LastLevel(g, fromId, order, head, queue, d);
            Discover(g, fromId, order, visited, next, d + 1);
            Enqueue(g, fromId, order, head, queue, d, next, path + [next]);
            visited := visited + {next};
            queue := queue + [ChainEntry(next, path + [next])];
            order := order + [Found(next, d + 1)];
          }
          k := k + 1;
        }
        AllTargetsMet(edges, nextEdges, current, visited);
        Advance(g, before, order, head, None, seen, visited);
        WaitAgain(g, fromId, order, head, queue, d, visited);
        head := head + 1;
      }
      NoneWaiting(g, fromId, order, head, queue);
      AllMet(g, fromId, order, visited, None, toId);
      return None;
    }

    /** Spreads over couplings, breadth first, up to `maxDepth` hops. */
    method GetBlastRadius(rootNodeId: string, maxDepth: int) returns (r: BlastRadius)
      requires Valid()
      ensures IsBlastRadius(nodes, edges, rootNodeId, maxDepth, r)
    {
      hide *;
      NodesKeyed();
      ghost var g, limit := Couplings(edges), Some(maxDepth);
      var visited := {rootNodeId};
      var impacted: seq<TopologyNode>, impactPaths: seq<seq<string>>, criticalCount: nat := [], [], 0;
      var queue := [BlastEntry(rootNodeId, 0, [rootNodeId], Trail([], rootNodeId))];
      var trails: seq<Trail> := [];
      var maxDepthReached := 0;
      ghost var order, head := [Found(rootNodeId, 0)], 0;
      StartSearch(g, rootNodeId, limit);
      StartReport(nodes, g, rootNodeId, maxDepth);
      StartTrails(edges, rootNodeId);
      while |queue| > 0
        invariant visited <= Ids(edges) + {rootNodeId}
        invariant Discovered(g, rootNodeId, order, visited) && Closed(g, order, head, limit, visited)
        invariant Waiting(g, rootNodeId, order, head, Plain(queue)) && Depths(queue)
        invariant Report(nodes, g, rootNodeId, maxDepth, order, impacted, criticalCount, impactPaths)
        invariant QueueTrailsFit(edges, queue) && TrailsFit(edges, impactPaths, trails)
        invariant maxDepthReached == LastLevelTaken(order, head)
        decreases Ids(edges) + {rootNodeId} - visited, |queue|
      {
        var BlastEntry(nodeId, depth, path, trail) := queue[0];
        PlainRest(queue);
        QueueTrailsRest(edges, queue);
        TakeFirst(g, rootNodeId, order, head, Plain(queue), visited);
        TakeLevel(g, rootNodeId, order, head, visited);
        queue := queue[1..];
        maxDepthReached := Max(maxDepthReached, depth);
        var dependents := Filter(edges, (e: TopologyEdge) =>
          (e.target == nodeId || e.source == nodeId) && Propagates(e));
        ghost var before, seen, waiting := order, visited, |queue|;
        var k := 0;
        while k < |dependents|
          invariant 0 <= k <= |dependents|
          invariant seen <= visited <= Ids(edges) + {rootNodeId}
          invariant visited == seen ==> |queue| == waiting
          invariant before <= order && Discovered(g, rootNodeId, order, visited)
          invariant Expanding(g, rootNodeId, order, head, Plain(queue), depth) && Depths(queue)
          invariant Report(nodes, g, rootNodeId, maxDepth, order, impacted, criticalCount, impactPaths)
          invariant QueueTrailsFit(edges, queue) && TrailsFit(edges, impactPaths, trails)
          invariant depth < maxDepth ==> forall j :: 0 <= j < k ==> Other(dependents[j], nodeId) in visited
        {
          var edge := dependents[k];
          var otherId := if edge.source == nodeId then edge.target else edge.source;
          CouplingLinks(edges, edge, nodeId);
          if otherId !in visited && depth < maxDepth {
            ghost var next := Found(otherId, depth + 1);
            LimitAllows(depth, maxDepth);
            NextLevel(g, rootNodeId, before, seen, head, limit, otherId);
            LastLevel(g, rootNodeId, order, head, Plain(queue), depth);
            Discover(g, rootNodeId, order, visited, otherId, depth + 1);
            WalkStep(g, rootNodeId, nodeId, otherId, path);
            Enqueue(g, rootNodeId, order, head, Plain(queue), depth, otherId, path + [otherId]);
            ReportMore(nodes, g, rootNodeId, maxDepth, order, impacted, criticalCount, impactPaths, next,
                       path + [otherId]);
            var nextTrail := Trail(trail.relations + [edge.relation], trail.text + Hop(edge.relation, otherId));
            PlainMore(queue, BlastEntry(otherId, depth + 1, path + [otherId], nextTrail));
            TrailStep(edges, g, rootNodeId, edge, nodeId, path, trail);
            QueueTrailsMore(edges, queue, BlastEntry(otherId, depth + 1, path + [otherId], nextTrail));
            TrailsMore(edges, impactPaths, trails, path + [otherId], nextTrail);
            visited := visited + {otherId};
            if otherId in nodes {
              var otherNode := nodes[otherId];
              impacted := impacted + [otherNode];
              if IsCritical(otherNode) {
                criticalCount := criticalCount + 1;
              }
            }
            var nextPath := path + [otherId];
            impactPaths := impactPaths + [nextPath];
            trails := trails + [nextTrail];
            queue := queue + [BlastEntry(otherId, depth + 1, nextPath, nextTrail)];
            order := order + [next];
          }
          k := k + 1;
        }
        AllOthersMet(edges, dependents, nodeId, depth, maxDepth, visited);
        Advance(g, before, order, head, limit, seen, visited);
        WaitAgain(g, rootNodeId, order, head, Plain(queue), depth, visited);
        LevelTaken(before, order, head);
        head := head + 1;
      }
      r := BlastRadius(rootNodeId, impacted, impactPaths, trails, maxDepthReached, criticalCount);
      NoneWaiting(g, rootNodeId, order, head, Plain(queue));
      ReportIsBlastRadius(nodes, edges, rootNodeId, maxDepth, order, visited, r);
    }
  }

  /** Every waiting entry carries a walk to its node with as many hops as its level. */
  ghost predicate Waiting(g: set<Link>, root: string, order: seq<Found>, head: nat, queue: seq<ChainEntry>) {
    && head <= |order| && |order| - head == |queue|
    && (forall i :: 0 <= i < |queue| ==>
                      && queue[i].current == order[head + i].id && |queue[i].path| == order[head + i].level + 1
                      && Walk(g, root, queue[i].current, queue[i].path))
    && (forall i :: head <= i < |order| ==> order[i].level <= order[head].level + 1)
  }

  lemma StartWaiting(g: set<Link>, root: string)
    ensures Waiting(g, root, [Found(root, 0)], 0, [ChainEntry(root, [root])])
  {
  }

  /** While the entry at `head`, of level `d`, is expanded: the others wait, and none is further than `d + 1`. */
  ghost predicate Expanding(g: set<Link>, root: string, order: seq<Found>, head: nat, queue: seq<ChainEntry>, d: nat) {
    && head < |order| && order[head].level == d && |order| - (head + 1) == |queue|
    && (forall i :: 0 <= i < |queue| ==>
                      && queue[i].current == order[head + 1 + i].id && |queue[i].path| == order[head + 1 + i].level + 1
                      && Walk(g, root, queue[i].current, queue[i].path))
    && (forall i :: head <= i < |order| ==> d <= order[i].level <= d + 1)
  }

  lemma TakeFirst(g: set<Link>, root: string, order: seq<Found>, head: nat, queue: seq<ChainEntry>,
                  visited: set<string>)
    requires Discovered(g, root, order, visited) && Waiting(g, root, order, head, queue) && |queue| > 0
    ensures head < |order| && Expanding(g, root, order, head, queue[1..], order[head].level)
    ensures var ChainEntry(current, path) := queue[0];
            && current == order[head].id && current in visited && |path| == order[head].level + 1
            && Walk(g, root, current, path)
  {
  }

  lemma Enqueue(g: set<Link>, root: string, order: seq<Found>, head: nat, queue: seq<ChainEntry>, d: nat,
                next: string, path: seq<string>)
    requires Expanding(g, root, order, head, queue, d)
    requires Walk(g, root, next, path) && |path| == d + 2
    ensures Expanding(g, root, order + [Found(next, d + 1)], head, queue + [ChainEntry(next, path)], d)
  {
  }

  lemma LastLevel(g: set<Link>, root: string, order: seq<Found>, head: nat, queue: seq<ChainEntry>, d: nat)
    requires Expanding(g, root, order, head, queue, d)
    ensures order[|order| - 1].level <= d + 1
  {
  }

  lemma NoneWaiting(g: set<Link>, root: string, order: seq<Found>, head: nat, queue: seq<ChainEntry>)
    requires Waiting(g, root, order, head, queue) && |queue| == 0
    ensures head == |order|
  {
  }

  lemma WaitAgain(g: set<Link>, root: string, order: seq<Found>, head: nat, queue: seq<ChainEntry>, d: nat,
                  visited: set<string>)
    requires Expanding(g, root, order, head, queue, d) && Discovered(g, root, order, visited)
    ensures Waiting(g, root, order, head + 1, queue)
  {
  }

  lemma EdgeLinks(edges: seq<TopologyEdge>, e: TopologyEdge)
    requires e in edges
    ensures (e.source, e.target) in Arrows(edges)
    ensures e.source in Ids(edges) && e.target in Ids(edges)
  {
  }

  lemma AllTargetsMet(edges: seq<TopologyEdge>, nextEdges: seq<TopologyEdge>, current: string, met: set<string>)
    requires forall e :: e in nextEdges <==> e in edges && e.source == current
    requires forall j :: 0 <= j < |nextEdges| ==> nextEdges[j].target in met
    ensures forall v :: (current, v) in Arrows(edges) ==> v in met
  {
    forall v | (current, v) in Arrows(edges) ensures v in met {
      var e :| e in edges && (e.source, e.target) == (current, v);
      assert e in nextEdges;
    }
  }

  // ----- the blast radius: what is reported for what was found -----

  function Max(a: int, b: int): int {
    if a < b then b else a
  }

  /** The far end of an edge, seen from `id`. */
  function Other(e: TopologyEdge, id: string): string {
    if e.source == id then e.target else e.source
  }

  ghost function Plain(queue: seq<BlastEntry>): (r: seq<ChainEntry>)
    ensures |r| == |queue|
  {
    seq(|queue|, i requires 0 <= i < |queue| => ChainEntry(queue[i].nodeId, queue[i].path))
  }

  ghost predicate Depths(queue: seq<BlastEntry>) {
    forall i :: 0 <= i < |queue| ==> |queue[i].path| == queue[i].depth + 1
  }

  lemma PlainRest(queue: seq<BlastEntry>)
    requires |queue| > 0 && Depths(queue)
    ensures Plain(queue[1..]) == Plain(queue)[1..] && |Plain(queue)| > 0 && Depths(queue[1..])
    ensures Plain(queue)[0] == ChainEntry(queue[0].nodeId, queue[0].path) && |queue[0].path| == queue[0].depth + 1
  {
  }

  lemma PlainMore(queue: seq<BlastEntry>, e: BlastEntry)
    requires Depths(queue) && |e.path| == e.depth + 1
    ensures Plain(queue + [e]) == Plain(queue) + [ChainEntry(e.nodeId, e.path)] && Depths(queue + [e])
  {
  }

  /** The registered nodes among those found after the root, in the order found. */
  ghost function Registered(nodes: map<string, TopologyNode>, order: seq<Found>): seq<TopologyNode> {
    if |order| <= 1 then []
    else
      var id := order[|order| - 1].id;
      Registered(nodes, order[..|order| - 1]) + (if id in nodes then [nodes[id]] else [])
  }

  ghost predicate Report(nodes: map<string, TopologyNode>, g: set<Link>, root: string, maxDepth: int, order: seq<Found>,
                         impacted: seq<TopologyNode>, criticalCount: nat, paths: seq<seq<string>>) {
    && impacted == Registered(nodes, order) && criticalCount == CountCritical(impacted)
    && PathsFit(g, root, maxDepth, order, paths)
  }

  /** One path for each node found after the root. */
  ghost predicate PathsFit(g: set<Link>, root: string, maxDepth: int, order: seq<Found>, paths: seq<seq<string>>) {
    |order| == |paths| + 1 && forall i :: 0 <= i < |paths| ==> PathFits(g, root, maxDepth, order[i + 1], paths[i])
  }

  ghost predicate PathFits(g: set<Link>, root: string, maxDepth: int, found: Found, path: seq<string>) {
    1 <= found.level <= maxDepth && |path| == found.level + 1 && Walk(g, root, found.id, path)
  }

  /** The level of the last entry taken from the queue. */
  ghost function LastLevelTaken(order: seq<Found>, head: nat): nat {
    if 0 < head <= |order| then order[head - 1].level else 0
  }

  ghost predicate QueueTrailsFit(edges: seq<TopologyEdge>, queue: seq<BlastEntry>) {
    forall i :: 0 <= i < |queue| ==> TrailFits(edges, queue[i].path, queue[i].trail)
  }

  lemma StartTrails(edges: seq<TopologyEdge>, root: string)
    ensures QueueTrailsFit(edges, [BlastEntry(root, 0, [root], Trail([], root))]) && TrailsFit(edges, [], [])
  {
  }

  lemma QueueTrailsRest(edges: seq<TopologyEdge>, queue: seq<BlastEntry>)
    requires |queue| > 0 && QueueTrailsFit(edges, queue)
    ensures QueueTrailsFit(edges, queue[1..]) && TrailFits(edges, queue[0].path, queue[0].trail)
  {
  }

  lemma QueueTrailsMore(edges: seq<TopologyEdge>, queue: seq<BlastEntry>, e: BlastEntry)
    requires QueueTrailsFit(edges, queue) && TrailFits(edges, e.path, e.trail)
    ensures QueueTrailsFit(edges, queue + [e])
  {
    hide TrailFits;
  }

  lemma TrailsMore(edges: seq<TopologyEdge>, paths: seq<seq<string>>, trails: seq<Trail>, path: seq<string>,
                   trail: Trail)
    requires TrailsFit(edges, paths, trails) && TrailFits(edges, path, trail)
    ensures TrailsFit(edges, paths + [path], trails + [trail])
  {
    hide TrailFits;
  }

  /** One hop further over an edge at the end of the path. */
  lemma TrailStep(edges: seq<TopologyEdge>, g: set<Link>, root: string, e: TopologyEdge, id: string, path: seq<string>,
                  trail: Trail)
    requires TrailFits(edges, path, trail) && Walk(g, root, id, path)
    requires e in edges && Propagates(e) && (e.source == id || e.target == id)
    ensures var other := Other(e, id);
            TrailFits(edges, path + [other], Trail(trail.relations + [e.relation], trail.text + Hop(e.relation, other)))
  {
    var other, n := Other(e, id), |trail.relations|;
    var longer, relations := path + [other], trail.relations + [e.relation];
    assert Joined(edges, id, other, e.relation);
    hide Joined, Hop;
    forall i | 0 <= i < |relations| ensures Joined(edges, longer[i], longer[i + 1], relations[i]) {
      if i < n {
        assert longer[i] == path[i] && longer[i + 1] == path[i + 1];
      }
    }
    assert longer[..n + 1] == path && relations[..n] == trail.relations;
  }

  lemma StartReport(nodes: map<string, TopologyNode>, g: set<Link>, root: string, maxDepth: int)
    ensures Report(nodes, g, root, maxDepth, [Found(root, 0)], [], 0, [])
    ensures Waiting(g, root, [Found(root, 0)], 0, Plain([BlastEntry(root, 0, [root], Trail([], root))]))
    ensures Depths([BlastEntry(root, 0, [root], Trail([], root))]) && LastLevelTaken([Found(root, 0)], 0) == 0
  {
    assert Plain([BlastEntry(root, 0, [root], Trail([], root))]) == [ChainEntry(root, [root])];
  }

  lemma TakeLevel(g: set<Link>, root: string, order: seq<Found>, head: nat, visited: set<string>)
    requires Discovered(g, root, order, visited) && head < |order|
    ensures Max(LastLevelTaken(order, head), order[head].level) == order[head].level
  {
  }

  lemma LevelTaken(before: seq<Found>, order: seq<Found>, head: nat)
    requires before <= order && head < |before|
    ensures LastLevelTaken(order, head + 1) == before[head].level
  {
  }

  lemma LimitAllows(depth: nat, maxDepth: int)
    ensures Below(depth, Some(maxDepth)) <==> depth < maxDepth
  {
  }

  lemma ReportMore(nodes: map<string, TopologyNode>, g: set<Link>, root: string, maxDepth: int, order: seq<Found>,
                   impacted: seq<TopologyNode>, criticalCount: nat, paths: seq<seq<string>>, next: Found,
                   path: seq<string>)
    requires Report(nodes, g, root, maxDepth, order, impacted, criticalCount, paths)
    requires 1 <= next.level <= maxDepth && |path| == next.level + 1 && Walk(g, root, next.id, path)
    ensures next.id !in nodes ==>
              Report(nodes, g, root, maxDepth, order + [next], impacted, criticalCount, paths + [path])
    ensures next.id in nodes ==>
              var more := if IsCritical(nodes[next.id]) then 1 else 0;
              Report(nodes, g, root, maxDepth, order + [next], impacted + [nodes[next.id]], criticalCount + more,
                     paths + [path])
  {
    PathsMore(g, root, maxDepth, order, paths, next, path);
    RegisteredMore(nodes, order, next);
    hide PathsFit, Registered, CountCritical, Walk;
    if next.id in nodes {
      CountMore(impacted, nodes[next.id]);
    }
  }

  lemma PathsMore(g: set<Link>, root: string, maxDepth: int, order: seq<Found>, paths: seq<seq<string>>,
                  next: Found, path: seq<string>)
    requires PathsFit(g, root, maxDepth, order, paths)
    requires 1 <= next.level <= maxDepth && |path| == next.level + 1 && Walk(g, root, next.id, path)
    ensures PathsFit(g, root, maxDepth, order + [next], paths + [path])
  {
    assert PathFits(g, root, maxDepth, next, path);
    hide PathFits;
    var more, longer := order + [next], paths + [path];
    forall i | 0 <= i < |longer| ensures PathFits(g, root, maxDepth, more[i + 1], longer[i]) {
      if i < |paths| {
        assert more[i + 1] == order[i + 1];
      }
    }
  }

  lemma RegisteredMore(nodes: map<string, TopologyNode>, order: seq<Found>, next: Found)
    requires |order| >= 1
    ensures Registered(nodes, order + [next]) ==
            if next.id in nodes then Registered(nodes, order) + [nodes[next.id]] else Registered(nodes, order)
  {
    assert (order + [next])[..|order|] == order;
    assert Registered(nodes, order) + [] == Registered(nodes, order);
  }

  lemma CountMore(ns: seq<TopologyNode>, n: TopologyNode)
    ensures CountCritical(ns + [n]) == CountCritical(ns) + (if IsCritical(n) then 1 else 0)
  {
    assert (ns + [n])[..|ns|] == ns;
  }

  lemma CouplingLinks(edges: seq<TopologyEdge>, e: TopologyEdge, id: string)
    requires e in edges && Propagates(e) && (e.source == id || e.target == id)
    ensures (id, Other(e, id)) in Couplings(edges) && Other(e, id) in Ids(edges)
    ensures Other(e, id) == if e.source == id then e.target else e.source
  {
  }

  lemma AllOthersMet(edges: seq<TopologyEdge>, dependents: seq<TopologyEdge>, id: string, depth: nat, maxDepth: int,
                     met: set<string>)
    requires forall e :: e in dependents <==> e in edges && (e.target == id || e.source == id) && Propagates(e)
    requires depth < maxDepth ==> forall j :: 0 <= j < |dependents| ==> Other(dependents[j], id) in met
    ensures Below(depth, Some(maxDepth)) ==> forall v :: (id, v) in Couplings(edges) ==> v in met
  {
    if depth < maxDepth {
      forall v | (id, v) in Couplings(edges) ensures v in met {
        var e :| e in edges && Propagates(e) && ((e.source, e.target) == (id, v) || (e.target, e.source) == (id, v));
        assert e in dependents;
      }
    }
  }

  lemma {:induction false} RegisteredMembers(nodes: map<string, TopologyNode>, order: seq<Found>, n: TopologyNode)
    ensures n in Registered(nodes, order) <==>
            exists i :: 1 <= i < |order| && order[i].id in nodes && nodes[order[i].id] == n
  {
    if |order| > 1 {
      var shorter := order[..|order| - 1];
      RegisteredMembers(nodes, shorter, n);
      if i :| 1 <= i < |order| && order[i].id in nodes && nodes[order[i].id] == n {
        assert i < |shorter| ==> shorter[i] == order[i];
      }
      if i :| 1 <= i < |shorter| && shorter[i].id in nodes && nodes[shorter[i].id] == n {
        assert order[i] == shorter[i];
      }
    }
  }

  lemma {:induction false} RegisteredDistinct(nodes: map<string, TopologyNode>, order: seq<Found>)
    requires Keyed(nodes) && Distinct(order)
    ensures DistinctIds(Registered(nodes, order))
  {
    if |order| > 1 {
      var shorter, last := order[..|order| - 1], order[|order| - 1];
      RegisteredDistinct(nodes, shorter);
      var ns := Registered(nodes, shorter);
      forall k | 0 <= k < |ns| ensures ns[k].id != last.id {
        RegisteredMembers(nodes, shorter, ns[k]);
      }
    }
  }

  lemma {:induction false} RegisteredByDistance(nodes: map<string, TopologyNode>, g: set<Link>, root: string,
                                                order: seq<Found>)
    requires Keyed(nodes) && Sorted(order)
    requires forall i :: 0 <= i < |order| ==> Distance(g, root, order[i].id, order[i].level)
    ensures ByDistance(g, root, Registered(nodes, order))
  {
    hide Distance;
    if |order| > 1 {
      var shorter, last := order[..|order| - 1], order[|order| - 1];
      RegisteredByDistance(nodes, g, root, shorter);
      var ns := Registered(nodes, shorter);
      forall k, d: nat, e: nat | 0 <= k < |ns| && Distance(g, root, ns[k].id, d) && Distance(g, root, last.id, e)
        ensures d <= e
      {
        RegisteredMembers(nodes, shorter, ns[k]);
        var i :| 1 <= i < |shorter| && shorter[i].id in nodes && nodes[shorter[i].id] == ns[k];
        DistanceUnique(g, root, ns[k].id, d, shorter[i].level);
        DistanceUnique(g, root, last.id, e, last.level);
      }
    }
  }

  lemma {:induction false} CountIsCardinality(ns: seq<TopologyNode>)
    requires DistinctIds(ns)
    ensures CountCritical(ns) == |set n | n in ns && IsCritical(n)|
  {
    if ns == [] {
      assert (set n | n in ns && IsCritical(n)) == {};
    } else {
      var shorter, last := ns[..|ns| - 1], ns[|ns| - 1];
      CountIsCardinality(shorter);
      CriticalStep(ns);
    }
  }

  lemma CriticalStep(ns: seq<TopologyNode>)
    requires ns != [] && DistinctIds(ns)
    ensures var shorter, last := ns[..|ns| - 1], ns[|ns| - 1];
            var before, after := set n | n in shorter && IsCritical(n), set n | n in ns && IsCritical(n);
            last !in before && after == (if IsCritical(last) then before + {last} else before)
  {
    hide IsCritical;
    assert ns == ns[..|ns| - 1] + [ns[|ns| - 1]];
    assert forall i :: 0 <= i < |ns| - 1 ==> ns[i].id != ns[|ns| - 1].id;
  }

  /** Nodes found and nodes within reach are the same. */
  lemma FoundIffWithin(g: set<Link>, root: string, maxDepth: int, order: seq<Found>, visited: set<string>, id: string)
    requires Discovered(g, root, order, visited) && Closed(g, order, |order|, Some(maxDepth), visited)
    requires forall i :: 1 <= i < |order| ==> 1 <= order[i].level <= maxDepth
    ensures id != root && Within(g, root, id, maxDepth) <==> exists i :: 1 <= i < |order| && order[i].id == id
  {
    AllMet(g, root, order, visited, Some(maxDepth), id);
    if i :| 1 <= i < |order| && order[i].id == id {
      WithinMonotone(g, root, id, order[i].level, maxDepth);
      assert order[0].id != order[i].id;
    }
  }

  lemma ImpactedIsRegistered(nodes: map<string, TopologyNode>, edges: seq<TopologyEdge>, root: string, maxDepth: int,
                             order: seq<Found>, visited: set<string>, n: TopologyNode)
    requires Keyed(nodes)
    requires var g := Couplings(edges);
             Discovered(g, root, order, visited) && Closed(g, order, |order|, Some(maxDepth), visited)
    requires forall i :: 1 <= i < |order| ==> 1 <= order[i].level <= maxDepth
    ensures n in Registered(nodes, order) <==> Impacted(nodes, edges, root, maxDepth, n.id) && nodes[n.id] == n
  {
    var g := Couplings(edges);
    RegisteredMembers(nodes, order, n);
    FoundIffWithin(g, root, maxDepth, order, visited, n.id);
  }

  lemma FoundReach(g: set<Link>, root: string, maxDepth: int, order: seq<Found>, visited: set<string>)
    requires Discovered(g, root, order, visited) && Closed(g, order, |order|, Some(maxDepth), visited)
    requires forall i :: 1 <= i < |order| ==> 1 <= order[i].level <= maxDepth
    ensures Reach(g, root, maxDepth, LastLevelTaken(order, |order|))
  {
    var last := order[|order| - 1];
    assert Distance(g, root, last.id, last.level);
    forall id, d: nat | Distance(g, root, id, d) && d <= maxDepth ensures d <= last.level {
      AllMet(g, root, order, visited, Some(maxDepth), id);
      WithinMonotone(g, root, id, d, maxDepth);
      var i :| 0 <= i < |order| && order[i].id == id;
      DistanceUnique(g, root, id, d, order[i].level);
    }
  }

  lemma FoundPaths(g: set<Link>, root: string, maxDepth: int, order: seq<Found>, visited: set<string>,
                   paths: seq<seq<string>>)
    requires Discovered(g, root, order, visited) && Closed(g, order, |order|, Some(maxDepth), visited)
    requires PathsFit(g, root, maxDepth, order, paths)
    ensures PathsTo(g, root, maxDepth, paths)
  {
    forall i | 1 <= i < |order| ensures 1 <= order[i].level <= maxDepth {
      assert PathFits(g, root, maxDepth, order[i - 1 + 1], paths[i - 1]);
    }
    hide Discovered, Closed, Within;
    assert forall i :: 0 <= i < |paths| ==> PathFits(g, root, maxDepth, order[i + 1], paths[i])
                                            && paths[i][|paths[i]| - 1] == order[i + 1].id;
    forall id | id != root && Within(g, root, id, maxDepth)
      ensures exists i :: 0 <= i < |paths| && |paths[i]| > 0 && paths[i][|paths[i]| - 1] == id
    {
      FoundIffWithin(g, root, maxDepth, order, visited, id);
      var j :| 1 <= j < |order| && order[j].id == id;
      assert paths[j - 1][|paths[j - 1]| - 1] == order[j - 1 + 1].id;
    }
  }

  lemma ReportIsBlastRadius(nodes: map<string, TopologyNode>, edges: seq<TopologyEdge>, root: string, maxDepth: int,
                            order: seq<Found>, visited: set<string>, r: BlastRadius)
    requires Keyed(nodes)
    requires var g := Couplings(edges);
             && Discovered(g, root, order, visited) && Closed(g, order, |order|, Some(maxDepth), visited)
             && Report(nodes, g, root, maxDepth, order, r.impacted, r.criticalCount, r.paths)
    requires r.root == root && r.maxDepthReached == LastLevelTaken(order, |order|)
    requires TrailsFit(edges, r.paths, r.trails)
    ensures IsBlastRadius(nodes, edges, root, maxDepth, r)
  {
    hide Discovered, Closed, Couplings, PathsTo, Reach, Walk, Registered, Within, CountCritical, Distance;
    var g := Couplings(edges);
    forall i | 1 <= i < |order| ensures 1 <= order[i].level <= maxDepth {
      assert |r.paths[i - 1]| == order[i - 1 + 1].level + 1;
    }
    DiscoveredParts(g, root, order, visited);
    forall n ensures n in r.impacted <==> Impacted(nodes, edges, root, maxDepth, n.id) && nodes[n.id] == n {
      ImpactedIsRegistered(nodes, edges, root, maxDepth, order, visited, n);
    }
    RegisteredDistinct(nodes, order);
    RegisteredByDistance(nodes, g, root, order);
    CountIsCardinality(r.impacted);
    FoundPaths(g, root, maxDepth, order, visited, r.paths);
    FoundReach(g, root, maxDepth, order, visited);
  }

  lemma DiscoveredParts(g: set<Link>, root: string, order: seq<Found>, visited: set<string>)
    requires Discovered(g, root, order, visited)
    ensures Sorted(order) && Distinct(order)
    ensures forall i :: 0 <= i < |order| ==> Distance(g, root, order[i].id, order[i].level)
  {
  }

  // ----- what the radius means -----

  /** A larger depth only adds nodes. */
  lemma ImpactGrows(nodes: map<string, TopologyNode>, edges: seq<TopologyEdge>, root: string, k: int, m: int,
                    small: BlastRadius, large: BlastRadius)
    requires k <= m
    requires IsBlastRadius(nodes, edges, root, k, small) && IsBlastRadius(nodes, edges, root, m, large)
    ensures forall n :: n in small.impacted ==> n in large.impacted
    ensures small.criticalCount <= large.criticalCount && small.maxDepthReached <= large.maxDepthReached
  {
    var g := Couplings(edges);
    forall n | n in small.impacted ensures n in large.impacted {
      WithinMonotone(g, root, n.id, k, m);
    }
    var a, b := set n | n in small.impacted && IsCritical(n), set n | n in large.impacted && IsCritical(n);
    assert a <= b;
    SubsetSize(a, b);
    assert Reach(g, root, k, small.maxDepthReached) && Reach(g, root, m, large.maxDepthReached);
  }

  lemma SubsetSize<T>(a: set<T>, b: set<T>)
    requires a <= b
    ensures |a| <= |b|
  {
    assert b == a + (b - a);
  }

  /** Two registered nodes impact each other or neither does. */
  lemma ImpactIsMutual(nodes: map<string, TopologyNode>, edges: seq<TopologyEdge>, a: string, b: string, k: int)
    requires a in nodes && b in nodes
    ensures Impacted(nodes, edges, a, k, b) <==> Impacted(nodes, edges, b, k, a)
  {
    var g := Couplings(edges);
    assert Symmetric(g);
    if Within(g, a, b, k) {
      WithinSymmetric(g, a, b, k);
    }
    if Within(g, b, a, k) {
      WithinSymmetric(g, b, a, k);
    }
  }
}
