/**
 Grouping scored page pairs: a depth-first search whose groups are the connected components of the
 pair graph, each with the scores of its pairs.
 */
module ConnectedGroups {
  import opened Basics
  import opened Sorting

  datatype Edge = Edge(left: nat, right: nat, score: real)

  datatype Group = Group(members: seq<nat>, scores: seq<real>)

  // ---------- chains ----------

  predicate Joins(e: Edge, a: nat, b: nat) {
    (e.left == a && e.right == b) || (e.left == b && e.right == a)
  }

  ghost predicate Linked(edges: seq<Edge>, a: nat, b: nat) {
    exists e :: e in edges && Joins(e, a, b)
  }

  ghost predicate Chain(edges: seq<Edge>, p: seq<nat>) {
    p != [] && forall i :: 0 <= i < |p| - 1 ==> Linked(edges, p[i], p[i + 1])
  }

  /** Some chain of edges joins a and b. */
  ghost predicate Connected(edges: seq<Edge>, a: nat, b: nat) {
    exists p :: Chain(edges, p) && p[0] == a && p[|p| - 1] == b
  }

  lemma ConnectedSelf(edges: seq<Edge>, a: nat)
    ensures Connected(edges, a, a)
  {
    assert Chain(edges, [a]);
  }

  lemma ConnectedStep(edges: seq<Edge>, a: nat, b: nat, c: nat)
    requires Connected(edges, a, b) && Linked(edges, b, c)
    ensures Connected(edges, a, c)
  {
    var p :| Chain(edges, p) && p[0] == a && p[|p| - 1] == b;
    assert Chain(edges, p + [c]);
    assert (p + [c])[|p|] == c;
  }

  lemma ConnectedReverse(edges: seq<Edge>, a: nat, b: nat)
    requires Connected(edges, a, b)
    ensures Connected(edges, b, a)
  {
    var p :| Chain(edges, p) && p[0] == a && p[|p| - 1] == b;
    var q := seq(|p|, i requires 0 <= i < |p| => p[|p| - 1 - i]);
    forall i | 0 <= i < |q| - 1 ensures Linked(edges, q[i], q[i + 1]) {
      assert Linked(edges, p[|p| - 2 - i], p[|p| - 1 - i]);
    }
    assert Chain(edges, q);
  }

  lemma ConnectedTrans(edges: seq<Edge>, a: nat, b: nat, c: nat)
    requires Connected(edges, a, b) && Connected(edges, b, c)
    ensures Connected(edges, a, c)
  {
    var p :| Chain(edges, p) && p[0] == a && p[|p| - 1] == b;
    var q :| Chain(edges, q) && q[0] == b && q[|q| - 1] == c;
    var r := p + q[1..];
    forall i | 0 <= i < |r| - 1 ensures Linked(edges, r[i], r[i + 1]) {
      if i < |p| - 1 {
        assert Linked(edges, p[i], p[i + 1]);
      } else {
        assert r[i] == q[i - (|p| - 1)] && r[i + 1] == q[i - (|p| - 1) + 1];
      }
    }
    assert Chain(edges, r);
  }

  /** Every neighbour of a member of s is in t. */
  ghost predicate NeighboursIn(edges: seq<Edge>, s: set<nat>, t: set<nat>) {
    forall a, b :: a in s && Linked(edges, a, b) ==> b in t
  }

  lemma {:induction false} ClosedHoldsChain(edges: seq<Edge>, s: set<nat>, p: seq<nat>)
    requires NeighboursIn(edges, s, s) && Chain(edges, p) && p[0] in s
    ensures p[|p| - 1] in s
  {
    if |p| > 1 {
      assert Chain(edges, p[..|p| - 1]);
      ClosedHoldsChain(edges, s, p[..|p| - 1]);
      assert Linked(edges, p[|p| - 2], p[|p| - 1]);
    }
  }

  // ---------- adjacency ----------

  ghost function Endpoints(edges: seq<Edge>): set<nat> {
    (set e | e in edges :: e.left) + (set e | e in edges :: e.right)
  }

  /** What one edge contributes to the neighbours of u. */
  function Contribution(e: Edge, u: nat): seq<(nat, real)> {
    if e.left == u && e.right == u then [(e.right, e.score), (e.left, e.score)]
    else if e.left == u then [(e.right, e.score)]
    else if e.right == u then [(e.left, e.score)]
    else []
  }

  /** The neighbours of u with their scores, in edge order; a self-loop counts at both its ends. */
  function Incident(edges: seq<Edge>, u: nat): seq<(nat, real)> {
    if edges == [] then []
    else Incident(edges[..|edges| - 1], u) + Contribution(edges[|edges| - 1], u)
  }

  ghost function Firsts(list: seq<(nat, real)>): set<nat> {
    set q | q in list :: q.0
  }

  lemma FirstsAppend(a: seq<(nat, real)>, b: seq<(nat, real)>)
    ensures Firsts(a + b) == Firsts(a) + Firsts(b)
  {
    forall v ensures v in Firsts(a + b) <==> v in Firsts(a) + Firsts(b) {
      if v in Firsts(a) {
        var q :| q in a && q.0 == v;
        assert q in a + b;
      }
      if v in Firsts(b) {
        var q :| q in b && q.0 == v;
        assert q in a + b;
      }
    }
  }

  lemma ContributionFirsts(e: Edge, u: nat, v: nat)
    ensures v in Firsts(Contribution(e, u)) <==> Joins(e, u, v)
  {
    if Joins(e, u, v) { assert (v, e.score) in Contribution(e, u); }
  }

  lemma LinkedNext(edges: seq<Edge>, e: Edge, a: nat, b: nat)
    ensures Linked(edges + [e], a, b) <==> Linked(edges, a, b) || Joins(e, a, b)
  {
    assert forall x :: x in edges + [e] <==> x in edges || x == e;
  }

  lemma {:induction false} IncidentIsLinked(edges: seq<Edge>, u: nat, v: nat)
    ensures v in Firsts(Incident(edges, u)) <==> Linked(edges, u, v)
  {
    if edges != [] {
      var before, e := edges[..|edges| - 1], edges[|edges| - 1];
      IncidentIsLinked(before, u, v);
      assert edges == before + [e];
      LinkedNext(before, e, u, v);
      FirstsAppend(Incident(before, u), Contribution(e, u));
      ContributionFirsts(e, u, v);
    }
  }

  /** The adjacency lists of the first edges. */
  ghost predicate AdjacencyOf(adjacency: map<nat, seq<(nat, real)>>, edges: seq<Edge>) {
    && adjacency.Keys == Endpoints(edges)
    && forall u :: Neighbours(adjacency, u) == Incident(edges, u)
  }

  function WithEdge(adjacency: map<nat, seq<(nat, real)>>, e: Edge): map<nat, seq<(nat, real)>> {
    var left := adjacency[e.left := Neighbours(adjacency, e.left) + [(e.right, e.score)]];
    left[e.right := Neighbours(left, e.right) + [(e.left, e.score)]]
  }

  lemma WithEdgeAt(adjacency: map<nat, seq<(nat, real)>>, e: Edge, u: nat)
    ensures Neighbours(WithEdge(adjacency, e), u) == Neighbours(adjacency, u) + Contribution(e, u)
  {
    if e.left == u && e.right == u {
      var n := Neighbours(adjacency, u);
      assert n + [(e.right, e.score)] + [(e.left, e.score)] == n + [(e.right, e.score), (e.left, e.score)];
    }
  }

  lemma IncidentNext(edges: seq<Edge>, e: Edge, u: nat)
    ensures Incident(edges + [e], u) == Incident(edges, u) + Contribution(e, u)
  {
    assert (edges + [e])[..|edges|] == edges;
  }

  lemma AdjacencyNext(adjacency: map<nat, seq<(nat, real)>>, edges: seq<Edge>, e: Edge)
    requires AdjacencyOf(adjacency, edges)
    ensures AdjacencyOf(WithEdge(adjacency, e), edges + [e])
  {
    hide Incident, Contribution, Endpoints, Neighbours;
    EndpointsNext(edges, e);
    forall u ensures Neighbours(WithEdge(adjacency, e), u) == Incident(edges + [e], u) {
      WithEdgeAt(adjacency, e, u);
      IncidentNext(edges, e, u);
      assert Neighbours(adjacency, u) == Incident(edges, u);
    }
  }

  method BuildAdjacency(edges: seq<Edge>) returns (adjacency: map<nat, seq<(nat, real)>>)
    ensures AdjacencyOf(adjacency, edges)
  {
    adjacency := map[];
    for i := 0 to |edges|
      invariant AdjacencyOf(adjacency, edges[..i])
    {
      hide AdjacencyOf;
      var e := edges[i];
      assert edges[..i + 1] == edges[..i] + [e];
      AdjacencyNext(adjacency, edges[..i], e);
      ghost var was := adjacency;
      adjacency := adjacency[e.left := Neighbours(adjacency, e.left) + [(e.right, e.score)]];
      adjacency := adjacency[e.right := Neighbours(adjacency, e.right) + [(e.left, e.score)]];
      assert adjacency == WithEdge(was, e);
    }
    assert edges[..|edges|] == edges;
  }

  function Neighbours(adjacency: map<nat, seq<(nat, real)>>, u: nat): seq<(nat, real)> {
    if u in adjacency then adjacency[u] else []
  }

  lemma EndpointsNext(edges: seq<Edge>, e: Edge)
    ensures Endpoints(edges + [e]) == Endpoints(edges) + {e.left, e.right}
  {
    forall u ensures u in Endpoints(edges + [e]) <==> u in Endpoints(edges) + {e.left, e.right} {
      if u in Endpoints(edges) {
        var x :| x in edges && (x.left == u || x.right == u);
        assert x in edges + [e];
      }
      assert e in edges + [e];
    }
  }

  // ---------- scores ----------

  /** How often score x occurs at u; a self-loop counts at both its ends. */
  ghost function CountAt(edges: seq<Edge>, u: nat, x: real): nat {
    if edges == [] then 0 else
      var e := edges[|edges| - 1];
      CountAt(edges[..|edges| - 1], u, x) + One(e.left == u && e.score == x) + One(e.right == u && e.score == x)
  }

  ghost function CountOver(edges: seq<Edge>, members: seq<nat>, x: real): nat {
    if members == [] then 0
    else CountOver(edges, members[..|members| - 1], x) + CountAt(edges, members[|members| - 1], x)
  }

  /** The number of edges with score x that start in s. */
  ghost function CountInside(edges: seq<Edge>, s: set<nat>, x: real): nat {
    if edges == [] then 0 else
      var e := edges[|edges| - 1];
      CountInside(edges[..|edges| - 1], s, x) + One(e.left in s && e.score == x)
  }

  lemma {:induction false} CountOverNext(edges: seq<Edge>, e: Edge, members: seq<nat>, x: real)
    requires Distinct(members)
    ensures CountOver(edges + [e], members, x) ==
            CountOver(edges, members, x) + One(e.left in members && e.score == x) +
              One(e.right in members && e.score == x)
  {
    if members != [] {
      var before, last := members[..|members| - 1], members[|members| - 1];
      CountOverNext(edges, e, before, x);
      assert (edges + [e])[..|edges|] == edges;
      assert members == before + [last] && last !in before;
    }
  }

  /** Over members closed under the edges, every inside edge's score is counted twice. */
  lemma {:induction false} CountedTwice(edges: seq<Edge>, members: seq<nat>, x: real)
    requires Distinct(members)
    requires forall e :: e in edges ==> (e.left in members <==> e.right in members)
    ensures CountOver(edges, members, x) == 2 * CountInside(edges, Elements(members), x)
  {
    if edges == [] {
      NoCount(members, x);
    } else {
      var before, e := edges[..|edges| - 1], edges[|edges| - 1];
      CountedTwice(before, members, x);
      assert edges == before + [e];
      CountOverNext(before, e, members, x);
    }
  }

  lemma {:induction false} NoCount(members: seq<nat>, x: real)
    ensures CountOver([], members, x) == 0
  {
    if members != [] { NoCount(members[..|members| - 1], x); }
  }

  function CountIn(list: seq<(nat, real)>, x: real): nat {
    if list == [] then 0 else CountIn(list[..|list| - 1], x) + One(list[|list| - 1].1 == x)
  }

  lemma CountInNext(list: seq<(nat, real)>, q: (nat, real), x: real)
    ensures CountIn(list + [q], x) == CountIn(list, x) + One(q.1 == x)
  {
    assert (list + [q])[..|list|] == list;
  }

  lemma ContributionCount(list: seq<(nat, real)>, e: Edge, u: nat, x: real)
    ensures CountIn(list + Contribution(e, u), x) ==
            CountIn(list, x) + One(e.left == u && e.score == x) + One(e.right == u && e.score == x)
  {
    hide CountIn;
    var right, left := (e.right, e.score), (e.left, e.score);
    CountInNext(list, right, x);
    CountInNext(list, left, x);
    CountInNext(list + [right], left, x);
    assert list + [right, left] == list + [right] + [left];
    assert list + [] == list;
  }

  lemma {:induction false} IncidentCount(edges: seq<Edge>, u: nat, x: real)
    ensures CountIn(Incident(edges, u), x) == CountAt(edges, u, x)
  {
    if edges != [] {
      hide CountIn, Contribution;
      var before, e := edges[..|edges| - 1], edges[|edges| - 1];
      IncidentCount(before, u, x);
      ContributionCount(Incident(before, u), e, u, x);
    }
  }

  // ---------- one search ----------

  function Seconds(list: seq<(nat, real)>): (r: seq<real>)
    ensures |r| == |list|
  {
    if list == [] then [] else Seconds(list[..|list| - 1]) + [list[|list| - 1].1]
  }

  /** The scores of all members' edges, member by member. */
  function ScoresOver(edges: seq<Edge>, members: seq<nat>): seq<real> {
    if members == [] then []
    else ScoresOver(edges, members[..|members| - 1]) + Seconds(Incident(edges, members[|members| - 1]))
  }

  lemma {:induction false} SecondsCount(list: seq<(nat, real)>, x: real)
    ensures multiset(Seconds(list))[x] == CountIn(list, x)
  {
    if list != [] { SecondsCount(list[..|list| - 1], x); }
  }

  lemma {:induction false} ScoresCount(edges: seq<Edge>, members: seq<nat>, x: real)
    ensures multiset(ScoresOver(edges, members))[x] == CountOver(edges, members, x)
  {
    if members != [] {
      hide Incident, CountAt, Seconds, CountIn;
      var u := members[|members| - 1];
      ScoresCount(edges, members[..|members| - 1], x);
      SecondsCount(Incident(edges, u), x);
      IncidentCount(edges, u, x);
    }
  }

  ghost predicate AllConnected(edges: seq<Edge>, start: nat, s: set<nat>) {
    forall v :: v in s ==> Connected(edges, start, v)
  }

  /** The search from start: what is visited beyond seen is split over members and pending. */
  ghost predicate Search(edges: seq<Edge>, seen: set<nat>, start: nat, visited: set<nat>,
                         members: seq<nat>, pending: seq<nat>) {
    && Distinct(members) && Distinct(pending)
    && Elements(members) !! Elements(pending)
    && visited == seen + Elements(members) + Elements(pending)
    && seen !! Elements(members) && seen !! Elements(pending)
    && start in Elements(members) + Elements(pending)
    && AllConnected(edges, start, Elements(members) + Elements(pending))
  }

  lemma PopKeeps(edges: seq<Edge>, seen: set<nat>, start: nat, visited: set<nat>, members: seq<nat>, rest: seq<nat>,
                 u: nat)
    requires Search(edges, seen, start, visited, members, rest + [u])
    ensures Search(edges, seen, start, visited, members + [u], rest)
    ensures u in visited && u !in members
  {
    hide AllConnected;
    ElementsSnoc(members, u);
    ElementsSnoc(rest, u);
    assert (rest + [u])[|rest|] == u;
    assert rest == (rest + [u])[..|rest|];
    assert u in Elements(rest + [u]);
    assert u !in rest;
    DistinctSnoc(members, u);
    assert Elements(members + [u]) + Elements(rest) == Elements(members) + Elements(rest + [u]);
  }

  lemma PushKeeps(edges: seq<Edge>, seen: set<nat>, start: nat, visited: set<nat>, members: seq<nat>,
                  pending: seq<nat>, u: nat, v: nat)
    requires Search(edges, seen, start, visited, members, pending)
    requires u in members && v !in visited && Linked(edges, u, v)
    ensures Search(edges, seen, start, visited + {v}, members, pending + [v])
  {
    hide Connected, Linked;
    ElementsSnoc(pending, v);
    DistinctSnoc(pending, v);
    assert u in Elements(members);
    ConnectedStep(edges, start, u, v);
  }

  /** The neighbours of one more member have all been visited. */
  lemma NeighboursNext(edges: seq<Edge>, members: seq<nat>, u: nat, t: set<nat>)
    requires NeighboursIn(edges, Elements(members), t)
    requires Firsts(Incident(edges, u)) <= t
    ensures NeighboursIn(edges, Elements(members + [u]), t)
  {
    hide Linked, Incident;
    forall a, b | a in members + [u] && Linked(edges, a, b) ensures b in t {
      if a == u {
        IncidentIsLinked(edges, u, b);
      } else {
        assert a in Elements(members);
      }
    }
  }

  lemma NeighboursWiden(edges: seq<Edge>, s: set<nat>, t: set<nat>, w: set<nat>)
    requires NeighboursIn(edges, s, t) && t <= w
    ensures NeighboursIn(edges, s, w)
  {
  }

  lemma FirstsNext(list: seq<(nat, real)>, i: nat)
    requires i < |list|
    ensures Firsts(list[..i + 1]) == Firsts(list[..i]) + {list[i].0}
    ensures Seconds(list[..i + 1]) == Seconds(list[..i]) + [list[i].1]
  {
    assert list[..i + 1] == list[..i] + [list[i]];
    FirstsAppend(list[..i], [list[i]]);
    assert list[i] in [list[i]];
    assert list[..i + 1][..i] == list[..i];
  }

  lemma EndpointsLinked(edges: seq<Edge>, v: nat)
    ensures v in Endpoints(edges) <==> exists u :: Linked(edges, v, u)
  {
    if v in Endpoints(edges) {
      var e :| e in edges && (e.left == v || e.right == v);
      var u := if e.left == v then e.right else e.left;
      assert Joins(e, v, u);
      assert Linked(edges, v, u);
    }
    if u :| Linked(edges, v, u) {
      var e :| e in edges && Joins(e, v, u);
    }
  }

  lemma IncidentNeighbour(edges: seq<Edge>, u: nat, i: nat)
    requires i < |Incident(edges, u)|
    ensures Linked(edges, u, Incident(edges, u)[i].0)
    ensures Incident(edges, u)[i].0 in Endpoints(edges)
  {
    hide Incident, Linked, Endpoints;
    var q := Incident(edges, u)[i];
    assert q.0 in Firsts(Incident(edges, u));
    IncidentIsLinked(edges, u, q.0);
    LinkedReverse(edges, u, q.0);
    EndpointsLinked(edges, q.0);
  }

  lemma LinkedReverse(edges: seq<Edge>, a: nat, b: nat)
    requires Linked(edges, a, b)
    ensures Linked(edges, b, a)
  {
    var e :| e in edges && Joins(e, a, b);
    assert Joins(e, b, a);
  }

  /** Notes the scores of u's edges and queues its unvisited neighbours. */
  method Expand(ghost edges: seq<Edge>, ghost seen: set<nat>, ghost start: nat, neighbours: seq<(nat, real)>, u: nat,
                ghost members: seq<nat>, visited0: set<nat>, pending0: seq<nat>, scores0: seq<real>)
      returns (visited: set<nat>, pending: seq<nat>, scores: seq<real>)
    requires neighbours == Incident(edges, u) && u in members
    requires Search(edges, seen, start, visited0, members, pending0)
    requires visited0 <= Endpoints(edges)
    ensures Search(edges, seen, start, visited, members, pending)
    ensures visited0 <= visited <= Endpoints(edges)
    ensures Firsts(Incident(edges, u)) <= visited
    ensures scores == scores0 + Seconds(Incident(edges, u))
  {
    hide Search, Incident, Endpoints, Linked;
    visited, pending, scores := visited0, pending0, scores0;
    assert neighbours[..0] == [];
    assert Firsts([]) == {} && Seconds([]) == [];
    for i := 0 to |neighbours|
      invariant Search(edges, seen, start, visited, members, pending)
      invariant visited0 <= visited <= Endpoints(edges)
      invariant Firsts(neighbours[..i]) <= visited
      invariant scores == scores0 + Seconds(neighbours[..i])
    {
      var (neighbour, score) := neighbours[i];
      FirstsNext(neighbours, i);
      IncidentNeighbour(edges, u, i);
      scores := scores + [score];
      if neighbour !in visited {
        PushKeeps(edges, seen, start, visited, members, pending, u, neighbour);
        visited := visited + {neighbour};
        pending := pending + [neighbour];
      }
    }
    assert neighbours[..|neighbours|] == neighbours;
  }

  /** Finds the unvisited pages connected to start. */
  method FindComponent(ghost edges: seq<Edge>, adjacency: map<nat, seq<(nat, real)>>, seen: set<nat>, start: nat)
      returns (members: seq<nat>, scores: seq<real>, visited: set<nat>)
    requires AdjacencyOf(adjacency, edges)
    requires start in Endpoints(edges) && start !in seen && seen <= Endpoints(edges)
    ensures Search(edges, seen, start, visited, members, [])
    ensures visited <= Endpoints(edges)
    ensures NeighboursIn(edges, Elements(members), visited)
    ensures scores == ScoresOver(edges, members)
  {
    hide Incident, Endpoints, Firsts, Linked, NeighboursIn, Search;
    members, scores, visited := [], [], seen + {start};
    var pending := [start];
    StartSearch(edges, seen, start);
    while pending != []
      invariant Search(edges, seen, start, visited, members, pending)
      invariant visited <= Endpoints(edges)
      invariant NeighboursIn(edges, Elements(members), visited)
      invariant scores == ScoresOver(edges, members)
      decreases Endpoints(edges) - Elements(members)
    {
      var current := pending[|pending| - 1];
      ghost var before := members;
      assert pending == pending[..|pending| - 1] + [current];
      PopKeeps(edges, seen, start, visited, members, pending[..|pending| - 1], current);
      ElementsSnoc(members, current);
      members, pending := members + [current], pending[..|pending| - 1];
      ghost var known := visited;
      assert adjacency.Keys == Endpoints(edges) && Neighbours(adjacency, current) == Incident(edges, current);
      visited, pending, scores := Expand(edges, seen, start, adjacency[current], current, members, visited, pending,
                                         scores);
      NeighboursWiden(edges, Elements(before), known, visited);
      NeighboursNext(edges, before, current, visited);
      assert members[..|before|] == before;
    }
  }

  lemma StartSearch(edges: seq<Edge>, seen: set<nat>, start: nat)
    requires start !in seen
    ensures Search(edges, seen, start, seen + {start}, [], [start])
    ensures NeighboursIn(edges, Elements<nat>([]), seen + {start})
  {
    hide Connected, Linked;
    ConnectedSelf(edges, start);
    assert Elements([start]) == {start};
    assert Elements<nat>([]) == {};
  }

  // ---------- components ----------

  ghost predicate Mates(edges: seq<Edge>, members: seq<nat>) {
    forall a, b :: a in members ==> (b in members <==> Connected(edges, a, b))
  }

  /** Every score occurs twice as often as the group has edges with it. */
  ghost predicate ScoresTwice(edges: seq<Edge>, g: Group) {
    forall x :: multiset(g.scores)[x] == 2 * CountInside(edges, Elements(g.members), x)
  }

  ghost predicate IsComponent(edges: seq<Edge>, g: Group) {
    && g.members != []
    && Distinct(g.members)
    && SortedBy(g.members, (a: nat, b: nat) => a <= b)
    && Mates(edges, g.members)
    && ScoresTwice(edges, g)
  }

  ghost function Covered(groups: seq<Group>): set<nat> {
    if groups == [] then {} else Covered(groups[..|groups| - 1]) + Elements(groups[|groups| - 1].members)
  }

  ghost predicate Separate(groups: seq<Group>) {
    groups != [] ==>
      && Separate(groups[..|groups| - 1])
      && Covered(groups[..|groups| - 1]) !! Elements(groups[|groups| - 1].members)
  }

  ghost predicate AllComponents(edges: seq<Edge>, groups: seq<Group>) {
    forall g :: g in groups ==> IsComponent(edges, g)
  }

  /** The seen pages are closed under the edges, so the new members are closed too. */
  lemma MembersClosed(edges: seq<Edge>, seen: set<nat>, members: set<nat>)
    requires NeighboursIn(edges, seen, seen) && NeighboursIn(edges, members, seen + members) && seen !! members
    ensures NeighboursIn(edges, members, members)
    ensures NeighboursIn(edges, seen + members, seen + members)
  {
    hide Linked;
    forall a, b | a in members && Linked(edges, a, b) ensures b in members {
      LinkedReverse(edges, a, b);
    }
  }

  lemma ClosedHoldsConnected(edges: seq<Edge>, s: set<nat>, a: nat, b: nat)
    requires NeighboursIn(edges, s, s) && a in s && Connected(edges, a, b)
    ensures b in s
  {
    hide NeighboursIn, Linked;
    var p :| Chain(edges, p) && p[0] == a && p[|p| - 1] == b;
    ClosedHoldsChain(edges, s, p);
  }

  lemma MembersAreMates(edges: seq<Edge>, start: nat, members: seq<nat>)
    requires NeighboursIn(edges, Elements(members), Elements(members))
    requires AllConnected(edges, start, Elements(members))
    ensures Mates(edges, members)
  {
    hide Connected, NeighboursIn;
    forall a, b | a in members ensures b in members <==> Connected(edges, a, b) {
      assert a in Elements(members);
      if b in members {
        assert b in Elements(members);
        ConnectedReverse(edges, start, a);
        ConnectedTrans(edges, a, start, b);
      }
      if Connected(edges, a, b) { ClosedHoldsConnected(edges, Elements(members), a, b); }
    }
  }

  lemma MembersScores(edges: seq<Edge>, members: seq<nat>, x: real)
    requires Distinct(members) && NeighboursIn(edges, Elements(members), Elements(members))
    ensures multiset(ScoresOver(edges, members))[x] == 2 * CountInside(edges, Elements(members), x)
  {
    ScoresCount(edges, members, x);
    forall e | e in edges ensures e.left in members <==> e.right in members {
      hide ScoresOver, CountInside, Distinct;
      assert Joins(e, e.left, e.right) && Joins(e, e.right, e.left);
      assert Linked(edges, e.left, e.right) && Linked(edges, e.right, e.left);
      assert e.left in members <==> e.left in Elements(members);
      assert e.right in members <==> e.right in Elements(members);
    }
    CountedTwice(edges, members, x);
  }

  lemma AscendingTotal()
    ensures TotalPreorder((a: nat, b: nat) => a <= b)
  {
  }

  /** What one search finds is a component. */
  lemma ComponentFound(edges: seq<Edge>, seen: set<nat>, start: nat, visited: set<nat>, members: seq<nat>)
    requires Search(edges, seen, start, visited, members, [])
    requires NeighboursIn(edges, seen, seen) && NeighboursIn(edges, Elements(members), visited)
    ensures IsComponent(edges, Group(Sort(members, (a: nat, b: nat) => a <= b), ScoresOver(edges, members)))
    ensures Elements(Sort(members, (a: nat, b: nat) => a <= b)) == Elements(members)
    ensures visited == seen + Elements(members) && seen !! Elements(members)
    ensures NeighboursIn(edges, visited, visited)
  {
    hide NeighboursIn, AllConnected, ScoresOver, CountInside, Connected, Sort;
    assert Elements<nat>([]) == {};
    assert visited == seen + Elements(members);
    MembersClosed(edges, seen, Elements(members));
    assert AllConnected(edges, start, Elements(members)) by {
      assert Elements(members) + Elements<nat>([]) == Elements(members);
    }
    MembersAreMates(edges, start, members);
    AscendingTotal();
    var leq := (a: nat, b: nat) => a <= b;
    var sorted := Sort(members, leq);
    SortSorts(members, leq);
    PermutationDistinct(members, sorted);
    SameElements(members, sorted);
    forall x ensures multiset(ScoresOver(edges, members))[x] == 2 * CountInside(edges, Elements(sorted), x) {
      MembersScores(edges, members, x);
    }
    SameMates(edges, members, sorted);
    assert members != [] by { assert start in Elements(members); }
  }

  lemma SameMates(edges: seq<Edge>, a: seq<nat>, b: seq<nat>)
    requires Mates(edges, a) && Elements(a) == Elements(b)
    ensures Mates(edges, b)
  {
    hide Connected;
    forall u ensures u in a <==> u in b {
      assert u in Elements(a) <==> u in Elements(b);
    }
  }

  lemma GroupAdded(edges: seq<Edge>, groups: seq<Group>, g: Group)
    requires AllComponents(edges, groups) && Separate(groups) && IsComponent(edges, g)
    requires Covered(groups) !! Elements(g.members)
    ensures AllComponents(edges, groups + [g]) && Separate(groups + [g])
    ensures Covered(groups + [g]) == Covered(groups) + Elements(g.members)
  {
    hide IsComponent;
    assert (groups + [g])[..|groups|] == groups;
  }

  // ---------- the grouping ----------

  /** The keys in ascending order. */
  method SortedKeys(keys: set<nat>) returns (s: seq<nat>)
    ensures Elements(s) == keys
    ensures SortedBy(s, (a: nat, b: nat) => a <= b)
  {
    s := [];
    var rest := keys;
    while rest != {}
      invariant rest <= keys && Elements(s) == keys - rest
    {
      var u :| u in rest;
      ElementsSnoc(s, u);
      rest, s := rest - {u}, s + [u];
    }
    AscendingTotal();
    SortSorts(s, (a: nat, b: nat) => a <= b);
    SameElements(s, Sort(s, (a: nat, b: nat) => a <= b));
    s := Sort(s, (a: nat, b: nat) => a <= b);
  }

  /** Groups exactly the connected components of the pair graph, with every pair's score twice. */
  method GroupPairs(edges: seq<Edge>) returns (groups: seq<Group>)
    ensures AllComponents(edges, groups)
    ensures Separate(groups)
    ensures Covered(groups) == Endpoints(edges)
  {
    hide AllComponents, IsComponent, Search, NeighboursIn, Endpoints, SortedBy;
    var adjacency := BuildAdjacency(edges);
    var starts := SortedKeys(adjacency.Keys);
    groups := [];
    var visited: set<nat> := {};
    NothingGrouped(edges);
    for i := 0 to |starts|
      invariant AllComponents(edges, groups) && Separate(groups)
      invariant Covered(groups) == visited && visited <= Endpoints(edges)
      invariant NeighboursIn(edges, visited, visited)
      invariant Elements(starts[..i]) <= visited
    {
      var start := starts[i];
      assert starts[..i + 1] == starts[..i] + [start];
      ElementsSnoc(starts[..i], start);
      if start !in visited {
        assert start in Elements(starts);
        ghost var seen := visited;
        var members, scores;
        members, scores, visited := FindComponent(edges, adjacency, visited, start);
        ComponentFound(edges, seen, start, visited, members);
        StartFound(edges, seen, start, visited, members);
        var g := Group(Sort(members, (a: nat, b: nat) => a <= b), scores);
        GroupAdded(edges, groups, g);
        groups := groups + [g];
      }
    }
    assert starts[..|starts|] == starts;
  }

  lemma StartFound(edges: seq<Edge>, seen: set<nat>, start: nat, visited: set<nat>, members: seq<nat>)
    requires Search(edges, seen, start, visited, members, [])
    ensures start in visited
  {
  }

  lemma NothingGrouped(edges: seq<Edge>)
    ensures AllComponents(edges, []) && NeighboursIn(edges, {}, {})
  {
  }

  // ---------- what the grouping means ----------

  lemma {:induction false} CoveredHas(groups: seq<Group>, v: nat)
    ensures v in Covered(groups) <==> exists g :: g in groups && v in g.members
  {
    if groups != [] {
      var before, last := groups[..|groups| - 1], groups[|groups| - 1];
      CoveredHas(before, v);
      assert groups == before + [last];
      assert v in Elements(last.members) <==> v in last.members;
    }
  }

  /** Two pages share a group exactly if a chain of pairs joins them. */
  lemma TogetherIffConnected(edges: seq<Edge>, groups: seq<Group>, a: nat, b: nat)
    requires AllComponents(edges, groups) && Covered(groups) == Endpoints(edges)
    requires a in Endpoints(edges)
    ensures (exists g :: g in groups && a in g.members && b in g.members) <==> Connected(edges, a, b)
  {
    hide Connected, Endpoints;
    CoveredHas(groups, a);
    var own :| own in groups && a in own.members;
    assert IsComponent(edges, own);
    forall g | g in groups && a in g.members && b in g.members ensures Connected(edges, a, b) {
      assert IsComponent(edges, g);
    }
  }

  /** No page is in two groups. */
  lemma {:induction false} GroupsDisjoint(groups: seq<Group>, i: nat, j: nat)
    requires Separate(groups) && i < j < |groups|
    ensures Elements(groups[i].members) !! Elements(groups[j].members)
  {
    var before := groups[..|groups| - 1];
    if j < |before| {
      GroupsDisjoint(before, i, j);
    } else {
      assert Elements(groups[i].members) <= Covered(before) by {
        forall v | v in groups[i].members ensures v in Covered(before) {
          assert groups[i] == before[i];
          CoveredHas(before, v);
        }
      }
    }
  }
}
