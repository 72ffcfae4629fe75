/** Finding the service an alert wave started at, from the registered dependencies. */
module CascadingRootCause {
  import opened Text
  import opened Walks
  import opened Selections

  datatype ServiceNode = ServiceNode(serviceId: string, serviceName: string, archetype: string, dependsOn: seq<string>)
  datatype FailureEvent = FailureEvent(serviceId: string, failureType: string, logSummary: string, timestamp: int)

  datatype Action = RemediateIsolated | FixOriginatingRootCause | DrainAndReconnect
  datatype RecoveryStep = RecoveryStep(step: nat, serviceId: string, action: Action)

  datatype Analysis = Analysis(
    rootService: string,
    rootFailure: string,
    downstream: seq<string>,
    isCascading: bool,
    plan: seq<RecoveryStep>)

  type Registry = map<string, ServiceNode>

  function Failing(events: seq<FailureEvent>): set<string> {
    set e | e in events :: e.serviceId
  }

  /** How many of the listed dependencies are failing, counted as listed. */
  function CountIn(deps: seq<string>, failing: set<string>): nat {
    if deps == [] then 0
    else CountIn(deps[..|deps| - 1], failing) + (if deps[|deps| - 1] in failing then 1 else 0)
  }

  function ActiveDependencies(registry: Registry, failing: set<string>, id: string): nat {
    if id in registry then CountIn(registry[id].dependsOn, failing) else 0
  }

  /** The first of the first `n` events with the fewest failing dependencies. */
  function RootIndex(registry: Registry, events: seq<FailureEvent>, n: nat): (i: nat)
    requires 0 < n <= |events|
    ensures i < n
  {
    if n == 1 then 0
    else
      var best := RootIndex(registry, events, n - 1);
      var failing := Failing(events);
      if ActiveDependencies(registry, failing, events[n - 1].serviceId)
         < ActiveDependencies(registry, failing, events[best].serviceId) then n - 1 else best
  }

  lemma {:induction false} RootIndexIsFirstMinimum(registry: Registry, events: seq<FailureEvent>, n: nat)
    requires 0 < n <= |events|
    ensures var i, failing := RootIndex(registry, events, n), Failing(events);
            var fewest := ActiveDependencies(registry, failing, events[i].serviceId);
            && (forall j :: 0 <= j < n ==> fewest <= ActiveDependencies(registry, failing, events[j].serviceId))
            && (forall j :: 0 <= j < i ==> fewest < ActiveDependencies(registry, failing, events[j].serviceId))
  {
    if n > 1 {
      RootIndexIsFirstMinimum(registry, events, n - 1);
    }
  }

  /** The ids of the events that are not about `root`, in event order. */
  function Others(events: seq<FailureEvent>, root: string): seq<string> {
    if events == [] then []
    else
      var last := events[|events| - 1];
      Others(events[..|events| - 1], root) + (if last.serviceId != root then [last.serviceId] else [])
  }

  /** The root is fixed first, then the others are reconnected in event order. */
  function PlanFor(root: string, downstream: seq<string>): seq<RecoveryStep> {
    [RecoveryStep(1, root, FixOriginatingRootCause)] +
    seq(|downstream|, i requires 0 <= i < |downstream| => RecoveryStep(i + 2, downstream[i], DrainAndReconnect))
  }

  function Diagnosis(registry: Registry, events: seq<FailureEvent>): Option<Analysis> {
    if |events| == 0 then None
    else if |events| == 1 then
      var single := events[0];
      Some(Analysis(single.serviceId, single.failureType, [], false,
                    [RecoveryStep(1, single.serviceId, RemediateIsolated)]))
    else
      var root := events[RootIndex(registry, events, |events|)];
      var downstream := Others(events, root.serviceId);
      Some(Analysis(root.serviceId, root.failureType, downstream, true, PlanFor(root.serviceId, downstream)))
  }

  // ----- the default topology -----

  function EdgeProxy(): ServiceNode {
    ServiceNode("edge-proxy", "Nginx Ingress Proxy", "WEB_EDGE_PROXY", ["app-backend"])
  }

  function AppBackend(): ServiceNode {
    ServiceNode("app-backend", "Core API Backend (Node/Go/Python)", "APPLICATION_RUNTIME",
                ["redis-cache", "primary-db"])
  }

  function RedisCache(): ServiceNode {
    ServiceNode("redis-cache", "Redis Session & Query Cache", "CACHE_MESSAGE_BROKER", [])
  }

  function PrimaryDb(): ServiceNode {
    ServiceNode("primary-db", "PostgreSQL Relational Primary", "DATABASE_HOST", [])
  }

  function DefaultTopology(): Registry {
    var services: Registry := map[];
    services["edge-proxy" := EdgeProxy()]["app-backend" := AppBackend()]
            ["redis-cache" := RedisCache()]["primary-db" := PrimaryDb()]
  }

  class CascadingRootCauseAnalyzer {
    var dependencyGraph: Registry

    constructor ()
      ensures dependencyGraph == DefaultTopology()
    {
      dependencyGraph := map[];
      new;
      RegisterService(EdgeProxy());
      RegisterService(AppBackend());
      RegisterService(RedisCache());
      RegisterService(PrimaryDb());
    }

    method RegisterService(node: ServiceNode)
      modifies this
      ensures dependencyGraph == old(dependencyGraph)[node.serviceId := node]
    {
      dependencyGraph := dependencyGraph[node.serviceId := node];
    }

    method CountActive(id: string, failing: set<string>) returns (n: nat)
      ensures n == ActiveDependencies(dependencyGraph, failing, id)
    {
      n := 0;
      if id in dependencyGraph {
        var deps := dependencyGraph[id].dependsOn;
        for k := 0 to |deps|
          invariant n == CountIn(deps[..k], failing)
        {
          assert deps[..k + 1][..k] == deps[..k];
          if deps[k] in failing {
            n := n + 1;
          }
        }
        assert deps[..|deps|] == deps;
      }
    }

    /** `None` stands for the error on an empty wave. */
    method DiagnoseAlertWave(events: seq<FailureEvent>) returns (r: Option<Analysis>)
      ensures r == Diagnosis(dependencyGraph, events)
    {
      if |events| == 0 {
        return None;
      }
      if |events| == 1 {
        var single := events[0];
        return Some(Analysis(single.serviceId, single.failureType, [], false,
                             [RecoveryStep(1, single.serviceId, RemediateIsolated)]));
      }
      var failing := Failing(events);
      var rootEvent := events[0];
      var minDependencies: int := -1;  // none counted yet
      for k := 0 to |events|
        invariant k > 0 ==> rootEvent == events[RootIndex(dependencyGraph, events, k)]
        invariant k > 0 ==> minDependencies == ActiveDependencies(dependencyGraph, failing, rootEvent.serviceId)
        invariant k == 0 ==> minDependencies == -1
      {
        var activeDeps := CountActive(events[k].serviceId, failing);
        if minDependencies < 0 || activeDeps < minDependencies {
          minDependencies, rootEvent := activeDeps, events[k];
        }
      }
      var downstream := Others(events, rootEvent.serviceId);
      ghost var expected := PlanFor(rootEvent.serviceId, downstream);
      var plan, step := [RecoveryStep(1, rootEvent.serviceId, FixOriginatingRootCause)], 2;
      for k := 0 to |downstream|
        invariant step == k + 2 && |plan| == k + 1
        invariant forall i :: 0 <= i < |plan| ==> plan[i] == expected[i]
      {
        plan := plan + [RecoveryStep(step, downstream[k], DrainAndReconnect)];
        step := step + 1;
      }
      assert plan == expected;
      return Some(Analysis(rootEvent.serviceId, rootEvent.failureType, downstream, true, plan));
    }
  }

  // ----- acyclic dependencies -----

  /** Service to dependency. */
  function Dependencies(registry: Registry): set<Link> {
    set id, d | id in registry && d in registry[id].dependsOn :: (id, d)
  }

  /** No service depends on itself, directly or through others. */
  ghost predicate Acyclic(g: set<Link>) {
    forall a, p :: Walk(g, a, a, p) ==> |p| == 1
  }

  lemma {:induction false} NoneActiveIff(deps: seq<string>, failing: set<string>)
    ensures CountIn(deps, failing) == 0 <==> forall d :: d in deps ==> d !in failing
  {
    if deps != [] {
      var short, last := deps[..|deps| - 1], deps[|deps| - 1];
      NoneActiveIff(short, failing);
      assert deps == short + [last];
    }
  }

  lemma ActiveIsLink(registry: Registry, failing: set<string>, id: string)
    ensures ActiveDependencies(registry, failing, id) == 0 <==>
            forall d :: (id, d) in Dependencies(registry) ==> d !in failing
  {
    if id in registry {
      NoneActiveIff(registry[id].dependsOn, failing);
      forall d ensures d in registry[id].dependsOn <==> (id, d) in Dependencies(registry) {
      }
    }
  }

  /** Following links inside a finite set without a cycle ends at a node with no link inside it. */
  lemma {:induction false} FindSink(g: set<Link>, s: set<string>, a: string, b: string, p: seq<string>)
    returns (sink: string)
    requires Acyclic(g) && Walk(g, a, b, p)
    requires forall i :: 0 <= i < |p| ==> p[i] in s
    ensures sink in s && forall d :: (sink, d) in g ==> d !in s
    decreases s - (set x | x in p)
  {
    if d :| (b, d) in g && d in s {
      WalkStep(g, a, b, d, p);
      if d in p {
        var i :| 0 <= i < |p| && p[i] == d;
        var loop := (p + [d])[i..];
        assert Walk(g, d, d, loop);
      }
      assert (set x | x in p + [d]) == (set x | x in p) + {d};
      sink := FindSink(g, s, a, d, p + [d]);
    } else {
      sink := b;
    }
  }

  /** Links that always lower a rank admit no cycle. */
  lemma {:induction false} RankFalls(g: set<Link>, rank: string -> int, a: string, b: string, p: seq<string>)
    requires forall x, y :: (x, y) in g ==> rank(y) < rank(x)
    requires Walk(g, a, b, p)
    ensures |p| > 1 ==> rank(b) < rank(a)
    decreases |p|
  {
    if |p| > 1 {
      var n := |p| - 2;
      assert (p[n], p[n + 1]) in g;
      assert Walk(g, a, p[n], p[..n + 1]);
      RankFalls(g, rank, a, p[n], p[..n + 1]);
    }
  }

  lemma DefaultTopologyIsAcyclic()
    ensures Acyclic(Dependencies(DefaultTopology()))
  {
    var g := Dependencies(DefaultTopology());
    var rank := (s: string) => if s == "edge-proxy" then 2 else if s == "app-backend" then 1 else 0;
    DefaultIdsDiffer();
    forall a, p | Walk(g, a, a, p) ensures |p| == 1 {
      RankFalls(g, rank, a, a, p);
    }
  }

  // ----- what a diagnosis means -----

  /** The root has no failing dependency exactly when some failing service has none. */
  lemma RootIsOriginIff(registry: Registry, events: seq<FailureEvent>)
    requires |events| >= 1
    ensures var failing, root := Failing(events), Diagnosis(registry, events).value.rootService;
            && root in failing
            && (ActiveDependencies(registry, failing, root) == 0 <==>
                exists e :: e in events && ActiveDependencies(registry, failing, e.serviceId) == 0)
  {
    RootIndexIsFirstMinimum(registry, events, |events|);
    var root := events[RootIndex(registry, events, |events|)];
    assert root in events && root.serviceId in Failing(events);
    if e :| e in events && ActiveDependencies(registry, Failing(events), e.serviceId) == 0 {
      var j :| 0 <= j < |events| && events[j] == e;
    }
  }

  /** With acyclic dependencies the root of any wave has no failing direct dependency. */
  lemma AcyclicRootHasNoFailingDependency(registry: Registry, events: seq<FailureEvent>)
    requires |events| >= 1 && Acyclic(Dependencies(registry))
    ensures var failing, root := Failing(events), Diagnosis(registry, events).value.rootService;
            && ActiveDependencies(registry, failing, root) == 0
            && forall d :: (root, d) in Dependencies(registry) ==> d !in failing
  {
    var g, failing, a := Dependencies(registry), Failing(events), events[0].serviceId;
    WalkStart(g, a);
    var sink := FindSink(g, failing, a, a, [a]);
    ActiveIsLink(registry, failing, sink);
    var e :| e in events && e.serviceId == sink;
    RootIsOriginIff(registry, events);
    ActiveIsLink(registry, failing, Diagnosis(registry, events).value.rootService);
  }

  // ----- the true origin -----

  /** `a` depends on `b`, directly or through other services, failing or not. */
  ghost predicate DependsOn(registry: Registry, a: string, b: string) {
    a != b && exists p :: Walk(Dependencies(registry), a, b, p)
  }

  /** Nothing that is failing lies below `id`, not even behind services that raised no alert. */
  ghost predicate IsTrueOrigin(registry: Registry, failing: set<string>, id: string) {
    id in failing && forall other :: other in failing ==> !DependsOn(registry, id, other)
  }

  /** A wave about exactly the given services, a chosen one first. */
  lemma {:induction false} WaveFor(failing: set<string>, first: string) returns (events: seq<FailureEvent>)
    requires first in failing
    ensures |events| >= 1 && events[0].serviceId == first && Failing(events) == failing
    decreases failing
  {
    var e := FailureEvent(first, "", "", 0);
    var rest := failing - {first};
    if next :| next in rest {
      var more := WaveFor(rest, next);
      events := [e] + more;
      FailingMore(e, more);
    } else {
      events := [e];
      FailingMore(e, []);
      assert rest == {} && failing == rest + {first};
      assert [e] + [] == [e];
    }
  }

  lemma FailingMore(e: FailureEvent, more: seq<FailureEvent>)
    ensures Failing([e] + more) == {e.serviceId} + Failing(more)
    ensures more == [] ==> Failing(more) == {}
  {
    var events := [e] + more;
    assert events[0] == e;
    assert forall m :: m in events <==> m == e || m in more;
  }

  ghost function RootOf(registry: Registry, events: seq<FailureEvent>): string
    requires |events| >= 1
  {
    Diagnosis(registry, events).value.rootService
  }

  /** A service without failing dependencies that is first in the wave is its root. */
  lemma FirstIsRoot(registry: Registry, events: seq<FailureEvent>)
    requires |events| >= 1 && ActiveDependencies(registry, Failing(events), events[0].serviceId) == 0
    ensures Diagnosis(registry, events).value.rootService == events[0].serviceId
  {
    RootIndexIsFirstMinimum(registry, events, |events|);
  }

  /** With acyclic dependencies the root is the true origin of a failure, in whatever order its alerts
      come, exactly when no failing service without failing dependencies has a failing one further down. */
  lemma RootIsTrueOriginIff(registry: Registry, failing: set<string>)
    requires Acyclic(Dependencies(registry))
    ensures (forall events | |events| >= 1 && Failing(events) == failing ::
               IsTrueOrigin(registry, failing, RootOf(registry, events)))
            <==> forall id :: id in failing && ActiveDependencies(registry, failing, id) == 0 ==>
                                IsTrueOrigin(registry, failing, id)
  {
    hide ActiveDependencies, IsTrueOrigin, RootOf, Acyclic;
    if forall events | |events| >= 1 && Failing(events) == failing ::
         IsTrueOrigin(registry, failing, RootOf(registry, events))
    {
      forall id | id in failing && ActiveDependencies(registry, failing, id) == 0
        ensures IsTrueOrigin(registry, failing, id)
      {
        var events := WaveFor(failing, id);
        FirstIsRoot(registry, events);
        RootIs(registry, events);
      }
    }
    if forall id :: id in failing && ActiveDependencies(registry, failing, id) == 0 ==>
                      IsTrueOrigin(registry, failing, id)
    {
      forall events | |events| >= 1 && Failing(events) == failing
        ensures IsTrueOrigin(registry, failing, RootOf(registry, events))
      {
        RootIsOriginIff(registry, events);
        RootIs(registry, events);
        AcyclicRootHasNoFailingDependency(registry, events);
      }
    }
  }

  lemma RootIs(registry: Registry, events: seq<FailureEvent>)
    requires |events| >= 1
    ensures Diagnosis(registry, events).value.rootService == RootOf(registry, events)
  {
  }

  /** In the default topology a proxy and its database fail while the backend between them is silent:
      the proxy is called the root, though it depends on the failing database. */
  lemma SilentServiceHidesOrigin()
    ensures var events := [FailureEvent("edge-proxy", "HTTP_502", "", 0),
                           FailureEvent("primary-db", "DB_DEADLOCK", "", 0)];
            && Diagnosis(DefaultTopology(), events).value.rootService == "edge-proxy"
            && "primary-db" in Failing(events) && DependsOn(DefaultTopology(), "edge-proxy", "primary-db")
  {
    var registry := DefaultTopology();
    var events := [FailureEvent("edge-proxy", "HTTP_502", "", 0), FailureEvent("primary-db", "DB_DEADLOCK", "", 0)];
    var failing, path := Failing(events), ["edge-proxy", "app-backend", "primary-db"];
    DefaultIdsDiffer();
    assert events[1] in events;
    assert registry["edge-proxy"] == EdgeProxy() && registry["app-backend"] == AppBackend();
    assert failing == {"edge-proxy", "primary-db"};
    NoneActiveIff(["app-backend"], failing);
    assert ActiveDependencies(registry, failing, "edge-proxy") == 0;
    FirstIsRoot(registry, events);
    assert AppBackend().dependsOn[1] == "primary-db";
    assert Walk(Dependencies(registry), "edge-proxy", "primary-db", path);
  }

  lemma DefaultIdsDiffer()
    ensures "redis-cache" != "edge-proxy" && "redis-cache" != "app-backend" && "primary-db" != "edge-proxy"
    ensures "primary-db" != "app-backend" && "app-backend" != "edge-proxy" && "primary-db" != "redis-cache"
  {
    assert |"edge-proxy"| == 10 && |"primary-db"| == 10 && |"app-backend"| == 11 && |"redis-cache"| == 11;
    assert "edge-proxy"[0] == 'e' && "primary-db"[0] == 'p' && "app-backend"[0] == 'a' && "redis-cache"[0] == 'r';
  }

  lemma {:induction false} OthersMembers(events: seq<FailureEvent>, root: string, id: string)
    ensures id in Others(events, root) <==> id in Failing(events) && id != root
  {
    if events != [] {
      var short, last := events[..|events| - 1], events[|events| - 1];
      OthersMembers(short, root, id);
      assert events == short + [last];
      assert id in Failing(events) <==> id in Failing(short) || id == last.serviceId;
    }
  }

  lemma {:induction false} OthersOnEvents(events: seq<FailureEvent>, root: string, other: FailureEvent -> bool)
    returns (kept: seq<FailureEvent>)
    requires forall e :: other(e) <==> e.serviceId != root
    ensures Selects(events, other, kept) && |kept| == |Others(events, root)|
    ensures forall i :: 0 <= i < |kept| ==> Others(events, root)[i] == kept[i].serviceId
  {
    hide Selects;
    if events == [] {
      SelectsNone(other);
      kept := [];
    } else {
      var n := |events| - 1;
      kept := OthersOnEvents(events[..n], root, other);
      SelectsMore(events[..n], events[n], other, kept);
      assert events == events[..n] + [events[n]];
      if other(events[n]) {
        kept := kept + [events[n]];
      }
    }
  }

  lemma {:induction false} CountInIsNumber(deps: seq<string>, failing: set<string>, in_: string -> bool)
    requires forall d :: in_(d) <==> d in failing
    ensures CountIn(deps, failing) == Number(deps, in_)
  {
    hide Number;
    if deps == [] {
      NumberNone(deps, in_);
    } else {
      var n := |deps| - 1;
      CountInIsNumber(deps[..n], failing, in_);
      NumberMore(deps[..n], deps[n], in_);
      assert deps == deps[..n] + [deps[n]];
    }
  }

  /** How many of the dependencies listed for the service of an event are themselves in the wave. */
  ghost function FailingDependencies(registry: Registry, events: seq<FailureEvent>, e: FailureEvent): nat {
    if e.serviceId in registry
    then Number(registry[e.serviceId].dependsOn, d => exists other :: other in events && other.serviceId == d)
    else 0
  }

  lemma ActiveOnEvents(registry: Registry, events: seq<FailureEvent>, e: FailureEvent)
    ensures ActiveDependencies(registry, Failing(events), e.serviceId) == FailingDependencies(registry, events, e)
  {
    hide Number;
    if e.serviceId in registry {
      CountInIsNumber(registry[e.serviceId].dependsOn, Failing(events),
                      d => exists other :: other in events && other.serviceId == d);
    }
  }

  /** A wave told by its events. One alone is remediated where it is. Of several the first with the fewest
      failing dependencies is the root, and its failure the root failure; the services of the other events
      are downstream, in event order. The root is to be fixed and every other service to be drained. */
  lemma DiagnosisOnEvents(registry: Registry, events: seq<FailureEvent>)
    ensures Diagnosis(registry, events).None? <==> events == []
    ensures |events| == 1 ==>
              Diagnosis(registry, events) ==
              Some(Analysis(events[0].serviceId, events[0].failureType, [], false,
                            [RecoveryStep(1, events[0].serviceId, RemediateIsolated)]))
    ensures |events| > 1 ==> IsDiagnosis(registry, events, Diagnosis(registry, events).value)
  {
    if |events| > 1 {
      RootOnEvents(registry, events);
      var i := RootIndex(registry, events, |events|);
      var root := events[i].serviceId;
      var kept := OthersOnEvents(events, root, (e: FailureEvent) => e.serviceId != root);
      assert IsDownstream(events, root, kept, Others(events, root)) by { hide Selects; }
      hide RootIndex, IsRoot, Others, IsDownstream;
    }
  }

  lemma RootOnEvents(registry: Registry, events: seq<FailureEvent>)
    requires events != []
    ensures IsRoot(registry, events, RootIndex(registry, events, |events|))
  {
    RootIndexIsFirstMinimum(registry, events, |events|);
    forall j | 0 <= j < |events|
      ensures ActiveDependencies(registry, Failing(events), events[j].serviceId)
           == FailingDependencies(registry, events, events[j])
    {
      ActiveOnEvents(registry, events, events[j]);
    }
    hide RootIndex, ActiveDependencies, FailingDependencies, Failing;
  }

  ghost predicate IsRoot(registry: Registry, events: seq<FailureEvent>, i: nat) {
    && i < |events|
    && (forall j :: 0 <= j < |events| ==>
                      FailingDependencies(registry, events, events[i])
                      <= FailingDependencies(registry, events, events[j]))
    && (forall j :: 0 <= j < i ==>
                      FailingDependencies(registry, events, events[i])
                      < FailingDependencies(registry, events, events[j]))
  }

  ghost predicate IsDownstream(events: seq<FailureEvent>, root: string, kept: seq<FailureEvent>, ids: seq<string>) {
    && Selects(events, (e: FailureEvent) => e.serviceId != root, kept) && |ids| == |kept|
    && forall k :: 0 <= k < |kept| ==> ids[k] == kept[k].serviceId
  }

  ghost predicate IsDiagnosis(registry: Registry, events: seq<FailureEvent>, r: Analysis) {
    && (exists i: nat :: IsRoot(registry, events, i) && r.rootService == events[i].serviceId
                    && r.rootFailure == events[i].failureType)
    && (exists kept :: IsDownstream(events, r.rootService, kept, r.downstream))
    && r.isCascading && |r.plan| == |r.downstream| + 1
    && r.plan[0] == RecoveryStep(1, r.rootService, FixOriginatingRootCause)
    && forall k :: 0 <= k < |r.downstream| ==>
                     r.plan[k + 1] == RecoveryStep(k + 2, r.downstream[k], DrainAndReconnect)
  }

  /** Steps are numbered from 1, step 1 alone is about the root, and the plan is about exactly the
      failing services. */
  lemma PlanStartsAtRoot(registry: Registry, events: seq<FailureEvent>)
    requires |events| >= 1
    ensures var r := Diagnosis(registry, events).value;
            && |r.plan| == |r.downstream| + 1 && r.plan[0].serviceId == r.rootService
            && (forall k :: 0 <= k < |r.plan| ==> r.plan[k].step == k + 1)
            && (forall k :: 0 < k < |r.plan| ==> r.plan[k].serviceId != r.rootService)
            && (forall id :: id in Failing(events) <==> exists k :: 0 <= k < |r.plan| && r.plan[k].serviceId == id)
            && (r.isCascading <==> |events| > 1)
  {
    var r := Diagnosis(registry, events).value;
    if |events| == 1 {
      assert Failing(events) == {events[0].serviceId};
      assert r.plan[0].serviceId == r.rootService;
    } else {
      RootIsOriginIff(registry, events);
      forall k | 0 < k < |r.plan|
        ensures r.plan[k].serviceId != r.rootService && r.plan[k].serviceId in Failing(events)
      {
        assert r.plan[k].serviceId == r.downstream[k - 1];
        OthersMembers(events, r.rootService, r.downstream[k - 1]);
      }
      forall id | id in Failing(events) ensures exists k :: 0 <= k < |r.plan| && r.plan[k].serviceId == id {
        OthersMembers(events, r.rootService, id);
        if id == r.rootService {
          assert r.plan[0].serviceId == id;
        } else {
          var j :| 0 <= j < |r.downstream| && r.downstream[j] == id;
          assert r.plan[j + 1].serviceId == id;
        }
      }
    }
  }
}
