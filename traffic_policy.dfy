/**
 * Traffic-policy helpers (trafficpolicy/trafficpolicy.go, and the same AddRoute,
 * TotalClustersWeight and NewOutboundTrafficPolicy in service/policy/trafficpolicy.go):
 * routes with weighted-cluster sets, rule and inbound-policy merging, and the sorted
 * hostname union.
 */
module TrafficPolicy {
  import opened Wrappers
  import opened Strings
  import opened Mesh
  import opened Seqs
  import Sorting

  /** A plugin of a chain; the priority (a float32 in the source) is an integer here. */
  datatype Plugin = Plugin(name: string, priority: int, script: string, buildIn: bool)

  datatype PathMatchType = PathMatchRegex | PathMatchPrefix | PathMatchExact

  /** An HTTP route match: path, its match type, methods and header regular expressions. */
  datatype HTTPRouteMatch = HTTPRouteMatch(path: string, pathMatchType: PathMatchType, methods: seq<string>,
                                           headers: map<string, string>)

  /** Matches every path (".*" as a regular expression) and every method ("*"). */
  const WildCardRouteMatch := HTTPRouteMatch(".*", PathMatchRegex, ["*"], map[])

  /** A route and the set of clusters it sends traffic to. */
  datatype RouteWeightedClusters = RouteWeightedClusters(httpRouteMatch: HTTPRouteMatch, weightedClusters: set<WeightedCluster>)

  /** mapset.NewSet followed by one Add per cluster. */
  method ClusterSet(weightedClusters: seq<WeightedCluster>) returns (wc: set<WeightedCluster>)
    ensures forall c :: c in wc <==> c in weightedClusters
  {
    wc := {};
    for i := 0 to |weightedClusters|
      invariant forall c :: c in wc <==> c in weightedClusters[..i]
    {
      wc := wc + {weightedClusters[i]};
    }
    assert weightedClusters[..|weightedClusters|] == weightedClusters;
  }

  /** The route is kept as given; the set holds exactly the given clusters, duplicates collapsed. */
  method NewRouteWeightedCluster(route: HTTPRouteMatch, weightedClusters: seq<WeightedCluster>) returns (r: RouteWeightedClusters)
    ensures r.httpRouteMatch == route
    ensures forall c :: c in r.weightedClusters <==> c in weightedClusters
  {
    var weightedClusterSet := ClusterSet(weightedClusters);
    r := RouteWeightedClusters(route, weightedClusterSet);
  }

  // ---- TotalClustersWeight ----

  /** The sum of the weights of a set of clusters, taken in an arbitrary order. */
  ghost function SumWeights(s: set<WeightedCluster>): int {
    if s == {} then 0
    else
      var c :| c in s;
      c.weight + SumWeights(s - {c})
  }

  /** The sum does not depend on the order: any element can be taken out first. */
  lemma {:induction false} SumWeightsRemove(s: set<WeightedCluster>, c: WeightedCluster)
    requires c in s
    ensures SumWeights(s) == c.weight + SumWeights(s - {c})
    decreases |s|
  {
    var d :| d in s && SumWeights(s) == d.weight + SumWeights(s - {d});
    if d != c {
      SumWeightsRemove(s - {d}, c);
      SumWeightsRemove(s - {c}, d);
      assert s - {d} - {c} == s - {c} - {d};
    }
  }

  /** The weight of a union of disjoint sets is the sum of their weights. */
  lemma {:induction false} SumWeightsUnion(a: set<WeightedCluster>, b: set<WeightedCluster>)
    requires a * b == {}
    ensures SumWeights(a + b) == SumWeights(a) + SumWeights(b)
    decreases |a|
  {
    if a != {} {
      var c :| c in a;
      SumWeightsRemove(a + b, c);
      SumWeightsRemove(a, c);
      assert (a + b) - {c} == (a - {c}) + b;
      SumWeightsUnion(a - {c}, b);
    } else {
      assert a + b == b;
    }
  }

  /** The loop over the set: each cluster's weight is added once. */
  method TotalClustersWeight(rwc: RouteWeightedClusters) returns (totalWeight: int)
    ensures totalWeight == SumWeights(rwc.weightedClusters)
  {
    totalWeight := 0;
    var remaining := rwc.weightedClusters;
    while remaining != {}
      invariant totalWeight + SumWeights(remaining) == SumWeights(rwc.weightedClusters)
      decreases |remaining|
    {
      var cluster :| cluster in remaining;
      SumWeightsRemove(remaining, cluster);
      totalWeight := totalWeight + cluster.weight;
      remaining := remaining - {cluster};
    }
  }

  // ---- AddRoute ----

  /** The error AddRoute reports: the route already present for the match, and the policy's name. */
  datatype RouteError = RouteExists(existing: RouteWeightedClusters, policyName: string)

  function MatchIs(m: HTTPRouteMatch): RouteWeightedClusters -> bool {
    (rt: RouteWeightedClusters) => rt.httpRouteMatch == m
  }

  /** No two routes have the same match. */
  predicate UniqueMatches(routes: seq<RouteWeightedClusters>) {
    forall i, j :: 0 <= i < j < |routes| ==> routes[i].httpRouteMatch != routes[j].httpRouteMatch
  }

  /**
   * The outcome of AddRoute on the given routes: a new route is appended when no route has
   * the match; the routes are unchanged when the first route with the match has the same
   * cluster set; otherwise an error naming that route.
   */
  function AddRouteResult(name: string, routes: seq<RouteWeightedClusters>, m: HTTPRouteMatch, wc: set<WeightedCluster>)
    : (r: Result<seq<RouteWeightedClusters>, RouteError>)
    ensures (forall i :: 0 <= i < |routes| ==> routes[i].httpRouteMatch != m) ==>
      r == Success(routes + [RouteWeightedClusters(m, wc)])
    ensures forall i :: 0 <= i < |routes| && routes[i].httpRouteMatch == m
                        && (forall j :: 0 <= j < i ==> routes[j].httpRouteMatch != m) ==>
      r == (if routes[i].weightedClusters == wc then Success(routes) else Failure(RouteExists(routes[i], name)))
  {
    match FirstIndex(routes, MatchIs(m))
    case None => Success(routes + [RouteWeightedClusters(m, wc)])
    case Some(i) =>
      if routes[i].weightedClusters == wc then Success(routes) else Failure(RouteExists(routes[i], name))
  }

  /** Adding the same route with the same clusters a second time changes nothing. */
  lemma AddRouteIdempotent(name: string, routes: seq<RouteWeightedClusters>, m: HTTPRouteMatch, wc: set<WeightedCluster>)
    requires AddRouteResult(name, routes, m, wc).Success?
    ensures var routes' := AddRouteResult(name, routes, m, wc).value;
      AddRouteResult(name, routes', m, wc) == Success(routes')
  {
    var routes' := AddRouteResult(name, routes, m, wc).value;
    match FirstIndex(routes, MatchIs(m))
    case None =>
      assert routes'[|routes|].httpRouteMatch == m;
      var k := FirstIndex(routes', MatchIs(m)).value;
      assert k == |routes|;
    case Some(i) =>
  }

  /** AddRoute never gives two routes the same match. */
  lemma AddRouteKeepsMatchesUnique(name: string, routes: seq<RouteWeightedClusters>, m: HTTPRouteMatch, wc: set<WeightedCluster>)
    requires UniqueMatches(routes)
    requires AddRouteResult(name, routes, m, wc).Success?
    ensures UniqueMatches(AddRouteResult(name, routes, m, wc).value)
  {
  }

  /** An error is reported only for a match already routed to a different cluster set. */
  lemma AddRouteConflict(name: string, routes: seq<RouteWeightedClusters>, m: HTTPRouteMatch, wc: set<WeightedCluster>)
    requires AddRouteResult(name, routes, m, wc).Failure?
    ensures var e := AddRouteResult(name, routes, m, wc).error;
      e.existing in routes && e.existing.httpRouteMatch == m && e.existing.weightedClusters != wc && e.policyName == name
  {
  }

  /** An outbound traffic policy: its name, hostnames and routes. */
  class OutboundTrafficPolicy {
    var name: string
    var hostnames: seq<string>
    var routes: seq<RouteWeightedClusters>

    /** NewOutboundTrafficPolicy: the name and hostnames as given, no routes. */
    constructor (name: string, hostnames: seq<string>)
      ensures this.name == name && this.hostnames == hostnames && routes == []
    {
      this.name := name;
      this.hostnames := hostnames;
      this.routes := [];
    }

    method AddRoute(httpRouteMatch: HTTPRouteMatch, weightedClusters: seq<WeightedCluster>) returns (err: Option<RouteError>)
      modifies this
      ensures name == old(name) && hostnames == old(hostnames)
      ensures var r := AddRouteResult(old(name), old(routes), httpRouteMatch, set c | c in weightedClusters);
        (r.Success? ==> err == None && routes == r.value) && (r.Failure? ==> err == Some(r.error) && routes == old(routes))
    {
      var wc := ClusterSet(weightedClusters);
      assert wc == set c | c in weightedClusters;
      var i := 0;
      while i < |routes|
        invariant 0 <= i <= |routes|
        invariant forall j :: 0 <= j < i ==> routes[j].httpRouteMatch != httpRouteMatch
      {
        var existingRoute := routes[i];
        if existingRoute.httpRouteMatch == httpRouteMatch {
          if existingRoute.weightedClusters == wc {
            return None;
          }
          return Some(RouteExists(existingRoute, name));
        }
        i := i + 1;
      }
      routes := routes + [RouteWeightedClusters(httpRouteMatch, wc)];
      return None;
    }
  }

  // ---- MergeRules ----

  /** An inbound rule: a route and the principals allowed to use it. */
  datatype Rule = Rule(route: RouteWeightedClusters, allowedPrincipals: set<string>)

  function RouteIs(route: RouteWeightedClusters): Rule -> bool {
    (o: Rule) => o.route == route
  }

  /** One step of MergeRules: union into the first rule with the same route, else append. */
  function MergeRule(rules: seq<Rule>, latest: Rule): seq<Rule> {
    match FirstIndex(rules, RouteIs(latest.route))
    case None => rules + [latest]
    case Some(i) => rules[i := rules[i].(allowedPrincipals := rules[i].allowedPrincipals + latest.allowedPrincipals)]
  }

  /** MergeRules: the latest rules merged one after the other. */
  function MergedRules(original: seq<Rule>, latest: seq<Rule>): seq<Rule> {
    if latest == [] then original
    else MergeRule(MergedRules(original, latest[..|latest| - 1]), latest[|latest| - 1])
  }

  method MergeRules(originalRules: seq<Rule>, latestRules: seq<Rule>) returns (merged: seq<Rule>)
    ensures merged == MergedRules(originalRules, latestRules)
  {
    merged := originalRules;
    for k := 0 to |latestRules|
      invariant merged == MergedRules(originalRules, latestRules[..k])
    {
      var latest := latestRules[k];
      assert latestRules[..k + 1][..k] == latestRules[..k];
      ghost var before := merged;
      var foundRoute := false;
      var j := 0;
      while j < |merged|
        invariant 0 <= j <= |merged|
        invariant merged == before && !foundRoute
        invariant forall j' :: 0 <= j' < j ==> merged[j'].route != latest.route
      {
        if latest.route == merged[j].route {
          foundRoute := true;
          assert FirstIndex(before, RouteIs(latest.route)) == Some(j);
          merged := merged[j := merged[j].(allowedPrincipals := merged[j].allowedPrincipals + latest.allowedPrincipals)];
          break;
        }
        j := j + 1;
      }
      if !foundRoute {
        merged := merged + [latest];
      }
    }
    assert latestRules[..|latestRules|] == latestRules;
  }

  /** No two rules have the same route. */
  predicate UniqueRoutes(rules: seq<Rule>) {
    forall i, j :: 0 <= i < j < |rules| ==> rules[i].route != rules[j].route
  }

  /** Every principal any rule grants for the route. */
  ghost function PrincipalsOf(rules: seq<Rule>, route: RouteWeightedClusters): set<string> {
    set i, p | 0 <= i < |rules| && rules[i].route == route && p in rules[i].allowedPrincipals :: p
  }

  lemma PrincipalsOfAppend(a: seq<Rule>, b: seq<Rule>, route: RouteWeightedClusters)
    ensures PrincipalsOf(a + b, route) == PrincipalsOf(a, route) + PrincipalsOf(b, route)
  {
    forall p | p in PrincipalsOf(a + b, route)
      ensures p in PrincipalsOf(a, route) + PrincipalsOf(b, route)
    {
      var i :| 0 <= i < |a + b| && (a + b)[i].route == route && p in (a + b)[i].allowedPrincipals;
      if i >= |a| {
        assert b[i - |a|] == (a + b)[i];
      }
    }
    forall p | p in PrincipalsOf(a, route)
      ensures p in PrincipalsOf(a + b, route)
    {
      var i :| 0 <= i < |a| && a[i].route == route && p in a[i].allowedPrincipals;
      assert (a + b)[i] == a[i];
    }
    forall p | p in PrincipalsOf(b, route)
      ensures p in PrincipalsOf(a + b, route)
    {
      var i :| 0 <= i < |b| && b[i].route == route && p in b[i].allowedPrincipals;
      assert (a + b)[|a| + i] == b[i];
    }
  }

  /** One merge step keeps routes unique and grants for each route what the rules and the latest rule granted together. */
  lemma MergeRuleSpec(rules: seq<Rule>, latest: Rule)
    requires UniqueRoutes(rules)
    ensures UniqueRoutes(MergeRule(rules, latest))
    ensures forall route :: PrincipalsOf(MergeRule(rules, latest), route) == PrincipalsOf(rules + [latest], route)
  {
    var r := MergeRule(rules, latest);
    match FirstIndex(rules, RouteIs(latest.route))
    case None =>
    case Some(i) =>
      forall route
        ensures PrincipalsOf(r, route) == PrincipalsOf(rules + [latest], route)
      {
        PrincipalsOfAppend(rules, [latest], route);
        forall p | p in PrincipalsOf(r, route)
          ensures p in PrincipalsOf(rules + [latest], route)
        {
          var k :| 0 <= k < |r| && r[k].route == route && p in r[k].allowedPrincipals;
          if k == i && p !in rules[i].allowedPrincipals {
            assert latest.route == route && p in latest.allowedPrincipals;
            assert p in PrincipalsOf([latest], route) by {
              assert [latest][0] == latest;
            }
          } else {
            assert p in PrincipalsOf(rules, route) by {
              assert rules[k].route == route && p in rules[k].allowedPrincipals;
            }
          }
        }
        forall p | p in PrincipalsOf(rules + [latest], route)
          ensures p in PrincipalsOf(r, route)
        {
          if p in PrincipalsOf(rules, route) {
            var k :| 0 <= k < |rules| && rules[k].route == route && p in rules[k].allowedPrincipals;
            assert r[k].route == route && p in r[k].allowedPrincipals;
          } else {
            var k :| 0 <= k < 1 && [latest][k].route == route && p in [latest][k].allowedPrincipals;
            assert r[i].route == route && p in r[i].allowedPrincipals;
          }
        }
      }
  }

  /**
   * MergeRules on rules with distinct routes keeps the routes distinct, and every route ends
   * up granting exactly the union of what the original and the latest rules granted for it.
   */
  lemma {:induction false} MergedRulesUnion(original: seq<Rule>, latest: seq<Rule>)
    requires UniqueRoutes(original)
    ensures UniqueRoutes(MergedRules(original, latest))
    ensures forall route :: PrincipalsOf(MergedRules(original, latest), route) == PrincipalsOf(original + latest, route)
    decreases |latest|
  {
    if latest != [] {
      var init := latest[..|latest| - 1];
      var last := latest[|latest| - 1];
      MergedRulesUnion(original, init);
      var m := MergedRules(original, init);
      MergeRuleSpec(m, last);
      forall route
        ensures PrincipalsOf(MergedRules(original, latest), route) == PrincipalsOf(original + latest, route)
      {
        PrincipalsOfAppend(m, [last], route);
        PrincipalsOfAppend(original + init, [last], route);
        assert original + latest == (original + init) + [last];
      }
    } else {
      assert original + latest == original;
    }
  }

  // ---- slicesUnionIfSubset ----

  /** Each element is smaller than every later one. */
  predicate StrictlySorted(s: seq<string>) {
    forall i, j :: 0 <= i < j < |s| ==> StrLess(s[i], s[j])
  }

  lemma StrLessIsStrictWeakOrder()
    ensures Sorting.StrictWeakOrder(StrLess)
  {
    forall a, b
      ensures StrLess(a, b) ==> !StrLess(b, a)
    {
      StrLessAsymmetric(a, b);
    }
    forall a, b, c
      ensures StrLess(a, c) ==> StrLess(a, b) || StrLess(b, c)
    {
      StrLessTotal(a, b);
      StrLessTransitive(b, a, c);
    }
  }

  lemma {:induction false} MinExists(s: set<string>)
    requires s != {}
    ensures exists m :: m in s && forall x :: x in s ==> !StrLess(x, m)
    decreases |s|
  {
    var y :| y in s;
    if s - {y} == {} {
      assert s == {y};
      StrLessIrreflexive(y);
    } else {
      MinExists(s - {y});
      var m :| m in s - {y} && forall x :: x in s - {y} ==> !StrLess(x, m);
      if StrLess(y, m) {
        forall x | x in s
          ensures !StrLess(x, y)
        {
          StrLessTransitive(x, y, m);
          StrLessAsymmetric(y, m);
          StrLessIrreflexive(y);
        }
      } else {
        assert forall x :: x in s ==> !StrLess(x, m);
      }
    }
  }

  /** The smallest string of a non-empty set. */
  ghost function MinOf(s: set<string>): (m: string)
    requires s != {}
    ensures m in s && forall x :: x in s ==> !StrLess(x, m)
  {
    MinExists(s);
    var m :| m in s && forall x :: x in s ==> !StrLess(x, m);
    m
  }

  /** The elements of a set of strings in increasing order (what sort.Strings leaves). */
  ghost function SortedOf(s: set<string>): seq<string>
    decreases |s|
  {
    if s == {} then [] else [MinOf(s)] + SortedOf(s - {MinOf(s)})
  }

  lemma {:induction false} SortedOfSpec(s: set<string>)
    ensures StrictlySorted(SortedOf(s))
    ensures forall x :: x in SortedOf(s) <==> x in s
    decreases |s|
  {
    if s != {} {
      var m := MinOf(s);
      var rest := SortedOf(s - {m});
      SortedOfSpec(s - {m});
      var r := SortedOf(s);
      assert r == [m] + rest;
      forall i, j | 0 <= i < j < |r|
        ensures StrLess(r[i], r[j])
      {
        if i == 0 {
          assert r[j] == rest[j - 1];
          assert r[j] in s - {m};
          StrLessTotal(m, r[j]);
        } else {
          assert r[i] == rest[i - 1] && r[j] == rest[j - 1];
        }
      }
    }
  }

  /** A strictly sorted sequence is determined by its elements. */
  lemma {:induction false} StrictlySortedUnique(a: seq<string>, b: seq<string>)
    requires StrictlySorted(a) && StrictlySorted(b)
    requires forall x :: x in a <==> x in b
    ensures a == b
    decreases |a|
  {
    assert |b| == 0 || b[0] in b;
    if a != [] {
      assert a[0] in b;
      assert b != [];
      assert b[0] in a;
      if a[0] != b[0] {
        var i :| 0 <= i < |b| && b[i] == a[0];
        var j :| 0 <= j < |a| && a[j] == b[0];
        StrLessAsymmetric(a[0], b[0]);
      }
      forall x
        ensures x in a[1..] <==> x in b[1..]
      {
        if x in a[1..] {
          var i :| 1 <= i < |a| && a[i] == x;
          StrLessIrreflexive(x);
          assert x != a[0];
          assert x in b;
        }
        if x in b[1..] {
          var i :| 1 <= i < |b| && b[i] == x;
          StrLessIrreflexive(x);
          assert x != b[0];
          assert x in a;
        }
      }
      StrictlySortedUnique(a[1..], b[1..]);
      assert a == [a[0]] + a[1..] && b == [b[0]] + b[1..];
    }
  }

  /**
   * What slicesUnionIfSubset returns: when the hostnames of one side are a subset of the
   * other's, their union in increasing order; otherwise nothing.
   */
  ghost function UnionIfSubset(first: seq<string>, second: seq<string>): seq<string> {
    var firstSet := set x | x in first;
    var secondSet := set x | x in second;
    if firstSet <= secondSet || secondSet <= firstSet then SortedOf(firstSet + secondSet) else []
  }

  /** The union is non-empty exactly when one side is a subset of the other and some hostname is given. */
  lemma UnionIfSubsetNonEmpty(first: seq<string>, second: seq<string>)
    ensures var firstSet := set x | x in first;
      var secondSet := set x | x in second;
      |UnionIfSubset(first, second)| > 0 <==> (firstSet <= secondSet || secondSet <= firstSet) && (first != [] || second != [])
  {
    var firstSet := set x | x in first;
    var secondSet := set x | x in second;
    SortedOfSpec(firstSet + secondSet);
    if first != [] {
      assert first[0] in firstSet;
    }
    if second != [] {
      assert second[0] in secondSet;
    }
  }

  predicate Distinct(s: seq<string>) {
    forall i, j :: 0 <= i < j < |s| ==> s[i] != s[j]
  }

  lemma {:induction false} DistinctCounts(s: seq<string>)
    requires Distinct(s)
    ensures forall x :: multiset(s)[x] <= 1
    decreases |s|
  {
    if s != [] {
      var init := s[..|s| - 1];
      DistinctCounts(init);
      assert s == init + [s[|s| - 1]];
      assert s[|s| - 1] !in init;
    }
  }

  lemma CountsDistinct(s: seq<string>)
    requires forall x :: multiset(s)[x] <= 1
    ensures Distinct(s)
  {
    forall i, j | 0 <= i < j < |s|
      ensures s[i] != s[j]
    {
      assert s == s[..j] + s[j..];
      assert s[j..][0] == s[j];
      assert multiset(s)[s[j]] == multiset(s[..j])[s[j]] + multiset(s[j..])[s[j]];
      assert multiset(s[..j])[s[j]] == 0;
      assert s[..j][i] == s[i];
    }
  }

  /** The sorted copy of the collected union: the array sort, then the slice. */
  method SortStrings(s: seq<string>) returns (r: seq<string>)
    requires Distinct(s)
    ensures StrictlySorted(r)
    ensures forall x :: x in r <==> x in s
  {
    var a := new string[|s|](i requires 0 <= i < |s| => s[i]);
    assert a[..] == s;
    Sorting.InsertionSort(a, StrLess);
    r := a[..];
    Sorting.InsSortMultiset(s, StrLess);
    StrLessIsStrictWeakOrder();
    Sorting.InsSortSorted(s, StrLess);
    DistinctCounts(s);
    CountsDistinct(r);
    forall x
      ensures x in r <==> x in s
    {
      assert x in r <==> x in multiset(r);
      assert x in s <==> x in multiset(s);
    }
    forall i, j | 0 <= i < j < |r|
      ensures StrLess(r[i], r[j])
    {
      StrLessTotal(r[i], r[j]);
    }
  }

  method SlicesUnionIfSubset(first: seq<string>, second: seq<string>) returns (unionSlice: seq<string>)
    ensures unionSlice == UnionIfSubset(first, second)
  {
    var firstSet := set x | x in first;
    var secondSet := set x | x in second;
    unionSlice := [];
    if firstSet <= secondSet || secondSet <= firstSet {
      var union := firstSet + secondSet;
      var remaining := union;
      while remaining != {}
        invariant forall x :: x in union <==> x in unionSlice || x in remaining
        invariant forall x :: x in unionSlice ==> x !in remaining
        invariant Distinct(unionSlice)
        decreases |remaining|
      {
        var intf :| intf in remaining;
        unionSlice := unionSlice + [intf];
        remaining := remaining - {intf};
      }
      unionSlice := SortStrings(unionSlice);
      SortedOfSpec(union);
      StrictlySortedUnique(unionSlice, SortedOf(union));
    }
  }

  // ---- MergeInboundPolicies ----

  /** An inbound traffic policy: name, hostnames and rules. */
  datatype InboundTrafficPolicy = InboundTrafficPolicy(name: string, hostnames: seq<string>, rules: seq<Rule>)

  /** NewInboundTrafficPolicy: the name and hostnames as given, no rules. */
  function NewInboundTrafficPolicy(name: string, hostnames: seq<string>): (p: InboundTrafficPolicy)
    ensures p.name == name && p.hostnames == hostnames && p.rules == []
  {
    InboundTrafficPolicy(name, hostnames, [])
  }

  /** An original policy after meeting a latest one: merged when the hostname union is non-empty. */
  ghost function MergedPolicy(o: InboundTrafficPolicy, l: InboundTrafficPolicy): InboundTrafficPolicy {
    var u := UnionIfSubset(o.hostnames, l.hostnames);
    if |u| > 0 then o.(hostnames := u, rules := MergedRules(o.rules, l.rules)) else o
  }

  ghost predicate AnyOverlap(original: seq<InboundTrafficPolicy>, l: InboundTrafficPolicy) {
    exists i :: 0 <= i < |original| && |UnionIfSubset(original[i].hostnames, l.hostnames)| > 0
  }

  /** One latest policy: merged into every original it overlaps, or appended when it overlaps none. */
  ghost function MergeInbound(original: seq<InboundTrafficPolicy>, l: InboundTrafficPolicy): seq<InboundTrafficPolicy> {
    if AnyOverlap(original, l) then seq(|original|, i requires 0 <= i < |original| => MergedPolicy(original[i], l))
    else original + [l]
  }

  ghost function MergedInbound(original: seq<InboundTrafficPolicy>, latest: seq<InboundTrafficPolicy>): seq<InboundTrafficPolicy> {
    if latest == [] then original
    else MergeInbound(MergedInbound(original, latest[..|latest| - 1]), latest[|latest| - 1])
  }

  /**
   * Each latest policy in turn merged into the policies so far. Policies and rules are values
   * here: a latest rule appended to two policies becomes two copies, where the source appends
   * one shared *Rule to both, so a later merge through one of them is not seen by the other.
   */
  method MergeInboundPolicies(original: seq<InboundTrafficPolicy>, latest: seq<InboundTrafficPolicy>)
    returns (merged: seq<InboundTrafficPolicy>)
    ensures merged == MergedInbound(original, latest)
  {
    merged := original;
    for k := 0 to |latest|
      invariant merged == MergedInbound(original, latest[..k])
    {
      var l := latest[k];
      assert latest[..k + 1][..k] == latest[..k];
      ghost var before := merged;
      var foundHostnames;
      merged, foundHostnames := MergeIntoOverlapping(merged, l);
      if !foundHostnames {
        merged := merged + [l];
      } else {
        assert AnyOverlap(before, l);
      }
    }
    assert latest[..|latest|] == latest;
  }

  /** The inner loop of MergeInboundPolicies: l merged into every policy whose hostnames it overlaps. */
  method MergeIntoOverlapping(policies: seq<InboundTrafficPolicy>, l: InboundTrafficPolicy)
    returns (merged: seq<InboundTrafficPolicy>, foundHostnames: bool)
    ensures merged == seq(|policies|, i requires 0 <= i < |policies| => MergedPolicy(policies[i], l))
    ensures foundHostnames <==> AnyOverlap(policies, l)
  {
    merged := policies;
    foundHostnames := false;
    for j := 0 to |merged|
      invariant |merged| == |policies|
      invariant forall i :: 0 <= i < j ==> merged[i] == MergedPolicy(policies[i], l)
      invariant forall i :: j <= i < |merged| ==> merged[i] == policies[i]
      invariant foundHostnames <==> exists i :: 0 <= i < j && |UnionIfSubset(policies[i].hostnames, l.hostnames)| > 0
    {
      var hostsUnion := SlicesUnionIfSubset(merged[j].hostnames, l.hostnames);
      if |hostsUnion| > 0 {
        var mergedRules := MergeRules(merged[j].rules, l.rules);
        merged := merged[j := merged[j].(hostnames := hostsUnion, rules := mergedRules)];
        foundHostnames := true;
      }
      assert merged[j] == MergedPolicy(policies[j], l);
    }
  }

  /**
   * Merging one latest policy keeps every original in place under its name and appends the
   * latest policy exactly when it overlaps none; a policy it overlaps then holds the
   * hostnames of both.
   */
  lemma MergeInboundSpec(original: seq<InboundTrafficPolicy>, l: InboundTrafficPolicy)
    ensures var r := MergeInbound(original, l);
      |r| == |original| + (if AnyOverlap(original, l) then 0 else 1)
      && (forall i :: 0 <= i < |original| ==> r[i].name == original[i].name)
      && (!AnyOverlap(original, l) ==> r[|original|] == l)
      && forall i :: 0 <= i < |original| && |UnionIfSubset(original[i].hostnames, l.hostnames)| > 0 ==>
           forall h :: h in r[i].hostnames <==> h in original[i].hostnames || h in l.hostnames
  {
    var r := MergeInbound(original, l);
    forall i | 0 <= i < |original| && |UnionIfSubset(original[i].hostnames, l.hostnames)| > 0
      ensures forall h :: h in r[i].hostnames <==> h in original[i].hostnames || h in l.hostnames
    {
      var firstSet := set x | x in original[i].hostnames;
      var secondSet := set x | x in l.hostnames;
      SortedOfSpec(firstSet + secondSet);
    }
  }
}
