/** The order of a queue-and-seen walk: what it visits when, and that nearer keys come first. */
module BreadthOrder {
  import opened BreadthFirst
  import opened Collections

  // ---------------------------------------------------------------- first offers

  /** The successors of the visited items, in turn. */
  function Offered<I>(succ: I -> seq<I>, visited: seq<I>): seq<I> {
    if visited == [] then [] else succ(visited[0]) + Offered(succ, visited[1..])
  }

  /** The items whose key is new when they come. */
  function Firsts<I>(items: seq<I>, key: I -> string, seen: set<string>): seq<I> {
    if items == [] then []
    else if key(items[0]) in seen then Firsts(items[1..], key, seen)
    else [items[0]] + Firsts(items[1..], key, seen + {key(items[0])})
  }

  lemma FirstSeen<I>(items: seq<I>, more: seq<I>, key: I -> string, seen: set<string>)
    requires items != [] && key(items[0]) in seen
    ensures Firsts(items + more, key, seen) == Firsts(items[1..] + more, key, seen)
  {
    assert (items + more)[1..] == items[1..] + more;
  }

  lemma FirstNew<I>(items: seq<I>, next: seq<I>, more: seq<I>, key: I -> string, seen: set<string>)
    requires items != [] && key(items[0]) !in seen
    ensures Firsts(items + (next + more), key, seen)
            == [items[0]] + Firsts(items[1..] + next + more, key, seen + {key(items[0])})
  {
    assert (items + (next + more))[1..] == items[1..] + next + more;
  }

  lemma OfferedCons<I>(succ: I -> seq<I>, item: I, visited: seq<I>)
    ensures Offered(succ, [item] + visited) == succ(item) + Offered(succ, visited)
  {
    assert ([item] + visited)[1..] == visited;
  }

  /** The visited items are the first of each key among all that is ever queued: the first queue, and then the
      successors of each visited item in turn. */
  lemma {:induction false} VisitsFirsts<I(!new)>(succ: I -> seq<I>, key: I -> string, next: string -> set<string>,
                                           universe: set<string>, queue: seq<I>, seen: set<string>)
    requires Follows(succ, key, next) && Closed(next, universe) && KeysOf(queue, key) <= universe
    ensures var visited := Visit(succ, key, next, universe, queue, seen);
            visited == Firsts(queue + Offered(succ, visited), key, seen)
    decreases |universe - seen|, |queue|
  {
    if queue != [] {
      var k, rest := key(queue[0]), queue[1..] + succ(queue[0]);
      hide Follows, Closed, KeysOf, Visit, Firsts, Offered;
      if k in seen {
        VisitSeen(succ, key, next, universe, queue, seen);
        VisitsFirsts(succ, key, next, universe, queue[1..], seen);
        FirstSeen(queue, Offered(succ, Visit(succ, key, next, universe, queue[1..], seen)), key, seen);
      } else {
        VisitNew(succ, key, next, universe, queue, seen);
        Fewer(universe, seen, k);
        VisitsFirsts(succ, key, next, universe, rest, seen + {k});
        var visited := Visit(succ, key, next, universe, rest, seen + {k});
        OfferedCons(succ, queue[0], visited);
        FirstNew(queue, succ(queue[0]), Offered(succ, visited), key, seen);
      }
    }
  }

  predicate IsFirst<I>(items: seq<I>, key: I -> string, seen: set<string>, k: nat) {
    k < |items| && key(items[k]) !in seen && forall j :: 0 <= j < k ==> key(items[j]) != key(items[k])
  }

  /** The first items stand where no earlier one has their key. */
  lemma {:induction false} FirstsAre<I>(items: seq<I>, key: I -> string, seen: set<string>) returns (places: seq<nat>)
    ensures Ascending(places) && Picked(Firsts(items, key, seen), items, places)
    ensures forall k: nat :: k in places <==> IsFirst(items, key, seen, k)
  {
    places := [];
    if items != [] {
      var skipped := key(items[0]) in seen;
      var later := if skipped then seen else seen + {key(items[0])};
      var rest := FirstsAre(items[1..], key, later);
      places := Onward(rest, skipped);
      FirstsMove(items, key, seen);
      hide *;
      OnwardIs(rest, skipped);
      PickedOn(Firsts(items[1..], key, later), items, rest, skipped);
    }
  }

  /** The elements at those places, in their order. */
  ghost predicate Picked<I>(some: seq<I>, items: seq<I>, places: seq<nat>) {
    |some| == |places| && forall i :: 0 <= i < |places| ==> places[i] < |items| && some[i] == items[places[i]]
  }

  lemma PickedOn<I>(some: seq<I>, items: seq<I>, rest: seq<nat>, skipped: bool)
    requires items != [] && Picked(some, items[1..], rest)
    ensures Picked(if skipped then some else [items[0]] + some, items, Onward(rest, skipped))
  {
    var all, skip := Onward(rest, skipped), if skipped then 0 else 1;
    var more := if skipped then some else [items[0]] + some;
    forall i | 0 <= i < |all| ensures all[i] < |items| && more[i] == items[all[i]] {
      assert i >= skip ==> all[i] == rest[i - skip] + 1 && more[i] == some[i - skip];
    }
  }

  /** Places one further on, and the first place unless it is skipped. */
  function Onward(rest: seq<nat>, skipped: bool): seq<nat> {
    (if skipped then [] else [0]) + seq(|rest|, i requires 0 <= i < |rest| => rest[i] + 1)
  }

  lemma OnwardIs(rest: seq<nat>, skipped: bool)
    requires Ascending(rest)
    ensures Ascending(Onward(rest, skipped))
    ensures forall k: nat :: k in Onward(rest, skipped) <==> if k == 0 then !skipped else k - 1 in rest
  {
    OnwardAscends(rest, skipped);
    hide Ascending, Onward;
    forall k: nat ensures k in Onward(rest, skipped) <==> if k == 0 then !skipped else k - 1 in rest {
      OnwardHolds(rest, skipped, k);
    }
  }

  lemma OnwardAscends(rest: seq<nat>, skipped: bool)
    requires Ascending(rest)
    ensures Ascending(Onward(rest, skipped))
  {
    var all, skip := Onward(rest, skipped), if skipped then 0 else 1;
    forall i, j | 0 <= i < j < |all| ensures all[i] < all[j] {
      assert i >= skip ==> rest[i - skip] < rest[j - skip];
    }
  }

  lemma OnwardHolds(rest: seq<nat>, skipped: bool, k: nat)
    ensures k in Onward(rest, skipped) <==> if k == 0 then !skipped else k - 1 in rest
  {
    var all, skip := Onward(rest, skipped), if skipped then 0 else 1;
    assert !skipped ==> all[0] == 0;
    if k > 0 && k - 1 in rest {
      var i :| 0 <= i < |rest| && rest[i] == k - 1;
      assert all[i + skip] == k;
    }
    if k in all && k > 0 {
      var i :| 0 <= i < |all| && all[i] == k;
      assert rest[i - skip] == k - 1;
    }
  }

  lemma FirstsMove<I>(items: seq<I>, key: I -> string, seen: set<string>)
    requires items != []
    ensures IsFirst(items, key, seen, 0) <==> key(items[0]) !in seen
    ensures forall k: nat :: k > 0 ==>
              (IsFirst(items, key, seen, k)
               <==> IsFirst(items[1..], key, if key(items[0]) in seen then seen else seen + {key(items[0])}, k - 1))
    ensures Firsts(items, key, seen)
            == if key(items[0]) in seen then Firsts(items[1..], key, seen)
               else [items[0]] + Firsts(items[1..], key, seen + {key(items[0])})
  {
    var later := if key(items[0]) in seen then seen else seen + {key(items[0])};
    assert later == seen + {key(items[0])};
    hide Firsts, IsFirst;
    forall k: nat | k > 0
      ensures IsFirst(items, key, seen, k) <==> IsFirst(items[1..], key, later, k - 1)
    {
      FirstMoves(items, key, seen, later, k);
    }
  }

  lemma FirstMoves<I>(items: seq<I>, key: I -> string, seen: set<string>, later: set<string>, k: nat)
    requires items != [] && k > 0 && later == seen + {key(items[0])}
    ensures IsFirst(items, key, seen, k) <==> IsFirst(items[1..], key, later, k - 1)
  {
    assert k < |items| ==> items[1..][k - 1] == items[k];
    if k < |items| && IsFirst(items[1..], key, later, k - 1) {
      forall j | 0 <= j < k ensures key(items[j]) != key(items[k]) {
        assert j > 0 ==> items[1..][j - 1] == items[j];
      }
    }
    if IsFirst(items, key, seen, k) {
      assert forall j :: 0 <= j < k - 1 ==> items[1..][j] == items[j + 1];
    }
  }

  // ---------------------------------------------------------------- nearer keys first

  predicate Steady(ds: seq<nat>) {
    forall i, j :: 0 <= i < j < |ds| ==> ds[i] <= ds[j]
  }

  /** A queue whose items are at most one step apart, the nearer ones in front. */
  predicate Levelled(ds: seq<nat>) {
    Steady(ds) && forall i, j :: 0 <= i < |ds| && 0 <= j < |ds| ==> ds[j] <= ds[i] + 1
  }

  /** The key is visited within that many steps. */
  predicate By<I>(visited: seq<I>, ds: seq<nat>, key: I -> string, k: string, d: nat)
    requires |ds| == |visited|
  {
    exists m :: 0 <= m < |visited| && key(visited[m]) == k && ds[m] <= d
  }

  ghost predicate QueueCovered<I>(queue: seq<I>, qs: seq<nat>, visited: seq<I>, ds: seq<nat>, key: I -> string,
                                  seen: set<string>)
    requires |qs| == |queue| && |ds| == |visited|
  {
    forall i :: 0 <= i < |queue| ==> key(queue[i]) in seen || By(visited, ds, key, key(queue[i]), qs[i])
  }

  ghost predicate StepCovered<I>(children: seq<I>, d: nat, visited: seq<I>, ds: seq<nat>, key: I -> string,
                                 seen: set<string>)
    requires |ds| == |visited|
  {
    forall i :: 0 <= i < |children| ==> key(children[i]) in seen || By(visited, ds, key, key(children[i]), d + 1)
  }

  ghost predicate StepsCovered<I(!new)>(succ: I -> seq<I>, visited: seq<I>, ds: seq<nat>, key: I -> string,
                                  seen: set<string>)
    requires |ds| == |visited|
  {
    forall m :: 0 <= m < |visited| ==> StepCovered(succ(visited[m]), ds[m], visited, ds, key, seen)
  }

  predicate FromQueue<I(==)>(queue: seq<I>, qs: seq<nat>, item: I, d: nat)
    requires |qs| == |queue|
  {
    exists i :: 0 <= i < |queue| && queue[i] == item && qs[i] == d
  }

  predicate FromVisited<I(==)>(succ: I -> seq<I>, visited: seq<I>, ds: seq<nat>, m: nat)
    requires |ds| == |visited| && m < |visited|
  {
    exists l :: 0 <= l < m && visited[m] in succ(visited[l]) && ds[m] == ds[l] + 1
  }

  ghost predicate Sources<I(!new)>(succ: I -> seq<I>, queue: seq<I>, qs: seq<nat>, visited: seq<I>, ds: seq<nat>)
    requires |qs| == |queue| && |ds| == |visited|
  {
    forall m: nat :: m < |visited| ==>
      FromQueue(queue, qs, visited[m], ds[m]) || FromVisited(succ, visited, ds, m)
  }

  /** What holds of the depths of a walk. */
  ghost predicate Deep<I(!new)>(succ: I -> seq<I>, key: I -> string, queue: seq<I>, qs: seq<nat>, seen: set<string>,
                          visited: seq<I>, ds: seq<nat>)
  {
    && |qs| == |queue| && |ds| == |visited| && Steady(ds)
    && (queue != [] ==> forall m :: 0 <= m < |ds| ==> qs[0] <= ds[m])
    && QueueCovered(queue, qs, visited, ds, key, seen)
    && StepsCovered(succ, visited, ds, key, seen)
    && Sources(succ, queue, qs, visited, ds)
  }

  lemma DeepSeen<I(!new)>(succ: I -> seq<I>, key: I -> string, queue: seq<I>, qs: seq<nat>, seen: set<string>,
                    visited: seq<I>, ds: seq<nat>)
    requires queue != [] && |qs| == |queue| && Steady(qs) && key(queue[0]) in seen
    requires Deep(succ, key, queue[1..], qs[1..], seen, visited, ds)
    requires |queue| == 1 ==> ds == []
    ensures Deep(succ, key, queue, qs, seen, visited, ds)
  {
    hide By, StepsCovered, FromVisited;
    forall m: nat | m < |visited|
      ensures FromQueue(queue, qs, visited[m], ds[m]) || FromVisited(succ, visited, ds, m)
    {
      if FromQueue(queue[1..], qs[1..], visited[m], ds[m]) {
        var i :| 0 <= i < |queue[1..]| && queue[1..][i] == visited[m] && qs[1..][i] == ds[m];
        assert queue[i + 1] == visited[m] && qs[i + 1] == ds[m];
      }
    }
    forall i | 0 <= i < |queue|
      ensures key(queue[i]) in seen || By(visited, ds, key, key(queue[i]), qs[i])
    {
      assert i > 0 ==> queue[1..][i - 1] == queue[i] && qs[1..][i - 1] == qs[i];
    }
  }

  function Steps(n: nat, d: nat): (r: seq<nat>)
    ensures |r| == n && forall i :: 0 <= i < n ==> r[i] == d
  {
    seq(n, _ => d)
  }

  lemma LevelledOn(qs: seq<nat>, n: nat)
    requires qs != [] && Levelled(qs)
    ensures Levelled(qs[1..]) && Levelled(qs[1..] + Steps(n, qs[0] + 1))
  {
    var all := qs[1..] + Steps(n, qs[0] + 1);
    assert forall i :: 0 <= i < |qs| - 1 ==> all[i] == qs[i + 1] && qs[0] <= all[i] <= qs[0] + 1;
    assert forall i :: |qs| - 1 <= i < |all| ==> all[i] == qs[0] + 1;
  }

  lemma ByCons<I>(item: I, d: nat, visited: seq<I>, ds: seq<nat>, key: I -> string, k: string, bound: nat)
    requires |ds| == |visited|
    ensures By(visited, ds, key, k, bound) ==> By([item] + visited, [d] + ds, key, k, bound)
    ensures k == key(item) && d <= bound ==> By([item] + visited, [d] + ds, key, k, bound)
  {
    var (all, es) := ([item] + visited, [d] + ds);
    assert all[0] == item && es[0] == d;
    if By(visited, ds, key, k, bound) {
      var m :| 0 <= m < |visited| && key(visited[m]) == k && ds[m] <= bound;
      assert all[m + 1] == visited[m] && es[m + 1] == ds[m];
    }
  }

  lemma StepCoveredCons<I>(children: seq<I>, e: nat, item: I, d: nat, visited: seq<I>, ds: seq<nat>, key: I -> string,
                           seen: set<string>)
    requires |ds| == |visited| && d <= e + 1
    requires StepCovered(children, e, visited, ds, key, seen + {key(item)})
    ensures StepCovered(children, e, [item] + visited, [d] + ds, key, seen)
  {
    hide By;
    forall i | 0 <= i < |children|
      ensures key(children[i]) in seen || By([item] + visited, [d] + ds, key, key(children[i]), e + 1)
    {
      ByCons(item, d, visited, ds, key, key(children[i]), e + 1);
    }
  }

  lemma QueueParts<I>(queue: seq<I>, qs: seq<nat>, children: seq<I>, visited: seq<I>, ds: seq<nat>, key: I -> string,
                      seen: set<string>)
    requires queue != [] && |qs| == |queue| && |ds| == |visited|
    requires QueueCovered(queue[1..] + children, qs[1..] + Steps(|children|, qs[0] + 1), visited, ds, key, seen)
    ensures QueueCovered(queue[1..], qs[1..], visited, ds, key, seen)
    ensures StepCovered(children, qs[0], visited, ds, key, seen)
  {
    hide By;
    var (all, es) := (queue[1..] + children, qs[1..] + Steps(|children|, qs[0] + 1));
    forall i | 0 <= i < |queue[1..]|
      ensures key(queue[1..][i]) in seen || By(visited, ds, key, key(queue[1..][i]), qs[1..][i])
    {
      assert all[i] == queue[1..][i] && es[i] == qs[1..][i];
    }
    forall i | 0 <= i < |children|
      ensures key(children[i]) in seen || By(visited, ds, key, key(children[i]), qs[0] + 1)
    {
      assert all[|queue[1..]| + i] == children[i] && es[|queue[1..]| + i] == qs[0] + 1;
    }
  }

  lemma QueueCons<I>(queue: seq<I>, qs: seq<nat>, visited: seq<I>, ds: seq<nat>, key: I -> string, seen: set<string>)
    requires queue != [] && |qs| == |queue| && |ds| == |visited| && Steady(qs)
    requires QueueCovered(queue[1..], qs[1..], visited, ds, key, seen + {key(queue[0])})
    ensures QueueCovered(queue, qs, [queue[0]] + visited, [qs[0]] + ds, key, seen)
  {
    hide By;
    forall i | 0 <= i < |queue|
      ensures key(queue[i]) in seen || By([queue[0]] + visited, [qs[0]] + ds, key, key(queue[i]), qs[i])
    {
      ByCons(queue[0], qs[0], visited, ds, key, key(queue[i]), qs[i]);
      assert i > 0 ==> queue[1..][i - 1] == queue[i] && qs[1..][i - 1] == qs[i];
    }
  }

  lemma SourceCons<I(!new)>(succ: I -> seq<I>, queue: seq<I>, qs: seq<nat>, visited: seq<I>, ds: seq<nat>)
    requires queue != [] && |qs| == |queue| && |ds| == |visited|
    requires Sources(succ, queue[1..] + succ(queue[0]), qs[1..] + Steps(|succ(queue[0])|, qs[0] + 1), visited, ds)
    ensures Sources(succ, queue, qs, [queue[0]] + visited, [qs[0]] + ds)
  {
    var (all, es) := ([queue[0]] + visited, [qs[0]] + ds);
    forall m: nat | m < |all| ensures FromQueue(queue, qs, all[m], es[m]) || FromVisited(succ, all, es, m) {
      if m > 0 {
        SourceOf(succ, queue, qs, visited, ds, m - 1);
      }
    }
  }

  lemma SourceOf<I(!new)>(succ: I -> seq<I>, queue: seq<I>, qs: seq<nat>, visited: seq<I>, ds: seq<nat>, m: nat)
    requires queue != [] && |qs| == |queue| && |ds| == |visited| && m < |visited|
    requires || FromQueue(queue[1..] + succ(queue[0]), qs[1..] + Steps(|succ(queue[0])|, qs[0] + 1),
                          visited[m], ds[m])
             || FromVisited(succ, visited, ds, m)
    ensures || FromQueue(queue, qs, visited[m], ds[m])
            || FromVisited(succ, [queue[0]] + visited, [qs[0]] + ds, m + 1)
  {
    var (all, es) := ([queue[0]] + visited, [qs[0]] + ds);
    assert all[0] == queue[0] && all[m + 1] == visited[m] && es[0] == qs[0] && es[m + 1] == ds[m];
    if FromVisited(succ, visited, ds, m) {
      var l :| 0 <= l < m && visited[m] in succ(visited[l]) && ds[m] == ds[l] + 1;
      assert all[l + 1] == visited[l] && es[l + 1] == ds[l];
    } else {
      var (items, steps) := (queue[1..] + succ(queue[0]), qs[1..] + Steps(|succ(queue[0])|, qs[0] + 1));
      var i :| 0 <= i < |items| && items[i] == visited[m] && steps[i] == ds[m];
      if i < |queue| - 1 {
        assert queue[i + 1] == visited[m] && qs[i + 1] == ds[m];
      } else {
        assert visited[m] in succ(all[0]) && es[m + 1] == es[0] + 1;
      }
    }
  }

  lemma DeepNew<I(!new)>(succ: I -> seq<I>, key: I -> string, queue: seq<I>, qs: seq<nat>, seen: set<string>,
                   visited: seq<I>, ds: seq<nat>)
    requires queue != [] && |qs| == |queue| && Levelled(qs) && key(queue[0]) !in seen
    requires Deep(succ, key, queue[1..] + succ(queue[0]), qs[1..] + Steps(|succ(queue[0])|, qs[0] + 1),
                  seen + {key(queue[0])}, visited, ds)
    requires queue[1..] + succ(queue[0]) == [] ==> ds == []
    ensures Deep(succ, key, queue, qs, seen, [queue[0]] + visited, [qs[0]] + ds)
  {
    var (item, d, children) := (queue[0], qs[0], succ(queue[0]));
    var (all, es) := ([item] + visited, [d] + ds);
    QueueParts(queue, qs, children, visited, ds, key, seen + {key(item)});
    QueueCons(queue, qs, visited, ds, key, seen);
    SourceCons(succ, queue, qs, visited, ds);
    hide QueueCovered, StepCovered, StepsCovered, Sources;
    NotNearer(qs, |children|, ds);
    StepsCoveredCons(succ, item, d, visited, ds, key, seen);
  }

  lemma NotNearer(qs: seq<nat>, n: nat, ds: seq<nat>)
    requires qs != [] && Levelled(qs) && Steady(ds)
    requires qs[1..] + Steps(n, qs[0] + 1) == [] ==> ds == []
    requires qs[1..] + Steps(n, qs[0] + 1) != [] ==>
               forall m :: 0 <= m < |ds| ==> (qs[1..] + Steps(n, qs[0] + 1))[0] <= ds[m]
    ensures Steady([qs[0]] + ds) && forall m :: 0 <= m < |ds| ==> qs[0] <= ds[m]
  {
    LevelledOn(qs, n);
    var all := qs[1..] + Steps(n, qs[0] + 1);
    assert all != [] ==> qs[0] <= all[0];
  }

  lemma StepsCoveredCons<I(!new)>(succ: I -> seq<I>, item: I, d: nat, visited: seq<I>, ds: seq<nat>, key: I -> string,
                                  seen: set<string>)
    requires |ds| == |visited| && (forall m :: 0 <= m < |ds| ==> d <= ds[m])
    requires StepCovered(succ(item), d, visited, ds, key, seen + {key(item)})
    requires StepsCovered(succ, visited, ds, key, seen + {key(item)})
    ensures StepsCovered(succ, [item] + visited, [d] + ds, key, seen)
  {
    hide StepCovered;
    var (all, es) := ([item] + visited, [d] + ds);
    forall m | 0 <= m < |all| ensures StepCovered(succ(all[m]), es[m], all, es, key, seen) {
      StepCoveredCons(succ(all[m]), es[m], item, d, visited, ds, key, seen);
    }
  }

  /** Every walk from a levelled queue has depths. */
  lemma {:induction false} VisitDepths<I(!new)>(succ: I -> seq<I>, key: I -> string, next: string -> set<string>,
                                          universe: set<string>, queue: seq<I>, seen: set<string>, qs: seq<nat>)
    returns (ds: seq<nat>)
    requires Follows(succ, key, next) && Closed(next, universe) && KeysOf(queue, key) <= universe
    requires |qs| == |queue| && Levelled(qs)
    ensures Deep(succ, key, queue, qs, seen, Visit(succ, key, next, universe, queue, seen), ds)
    ensures queue == [] ==> ds == []
    decreases |universe - seen|, |queue|
  {
    ds := [];
    if queue != [] {
      var k, rest := key(queue[0]), queue[1..] + succ(queue[0]);
      hide Follows, Closed, KeysOf, Visit, Deep;
      LevelledOn(qs, |succ(queue[0])|);
      if k in seen {
        VisitSeen(succ, key, next, universe, queue, seen);
        ds := VisitDepths(succ, key, next, universe, queue[1..], seen, qs[1..]);
        DeepSeen(succ, key, queue, qs, seen, Visit(succ, key, next, universe, queue[1..], seen), ds);
      } else {
        VisitNew(succ, key, next, universe, queue, seen);
        Fewer(universe, seen, k);
        ds := VisitDepths(succ, key, next, universe, rest, seen + {k},
                          qs[1..] + Steps(|succ(queue[0])|, qs[0] + 1));
        DeepNew(succ, key, queue, qs, seen, Visit(succ, key, next, universe, rest, seen + {k}), ds);
        ds := [qs[0]] + ds;
      }
    }
  }

  // ---------------------------------------------------------------- depths are distances

  ghost predicate WayOf(next: string -> set<string>, from: string, to: string, n: nat, path: seq<string>) {
    |path| == n + 1 && Chain(next, path) && path[0] == from && path[n] == to
  }

  /** The length of the shortest chain of edges. */
  ghost predicate Distance(next: string -> set<string>, from: string, to: string, n: nat) {
    && (exists path :: WayOf(next, from, to, n, path))
    && forall m: nat, path :: WayOf(next, from, to, m, path) ==> n <= m
  }

  lemma WayOn(next: string -> set<string>, from: string, to: string, n: nat, path: seq<string>, onward: string)
    requires WayOf(next, from, to, n, path) && onward in next(to)
    ensures WayOf(next, from, onward, n + 1, path + [onward])
  {
    var longer := path + [onward];
    assert forall i :: 0 <= i < |path| ==> longer[i] == path[i];
  }

  lemma {:induction false} WayTo<I(!new)>(succ: I -> seq<I>, key: I -> string, next: string -> set<string>, start: I,
                                          visited: seq<I>, ds: seq<nat>, m: nat)
    returns (path: seq<string>)
    requires Follows(succ, key, next) && |ds| == |visited| && m < |visited|
    requires Sources(succ, [start], [0], visited, ds)
    ensures WayOf(next, key(start), key(visited[m]), ds[m], path)
    decreases m
  {
    if FromQueue([start], [0], visited[m], ds[m]) {
      path := [key(start)];
    } else {
      var l :| 0 <= l < m && visited[m] in succ(visited[l]) && ds[m] == ds[l] + 1;
      path := WayTo(succ, key, next, start, visited, ds, l);
      assert key(visited[m]) in KeysOf(succ(visited[l]), key);
      WayOn(next, key(start), key(visited[l]), ds[l], path, key(visited[m]));
      path := path + [key(visited[m])];
    }
  }

  /** Whatever a chain of n edges leads to is visited within n steps. */
  lemma {:induction false} WithinWay<I(!new)>(succ: I -> seq<I>, key: I -> string, next: string -> set<string>,
                                              start: I, visited: seq<I>, ds: seq<nat>, to: string, n: nat,
                                              path: seq<string>)
    requires Follows(succ, key, next) && |ds| == |visited|
    requires QueueCovered([start], [0], visited, ds, key, {}) && StepsCovered(succ, visited, ds, key, {})
    requires WayOf(next, key(start), to, n, path)
    ensures By(visited, ds, key, to, n)
    decreases n
  {
    if n == 0 {
      assert [start][0] == start;
    } else {
      assert WayOf(next, key(start), path[n - 1], n - 1, path[..n]);
      WithinWay(succ, key, next, start, visited, ds, path[n - 1], n - 1, path[..n]);
      var m :| 0 <= m < |visited| && key(visited[m]) == path[n - 1] && ds[m] <= n - 1;
      NextCovered(succ, key, next, visited, ds, m, to);
    }
  }

  lemma NextCovered<I(!new)>(succ: I -> seq<I>, key: I -> string, next: string -> set<string>, visited: seq<I>,
                             ds: seq<nat>, m: nat, to: string)
    requires Follows(succ, key, next) && |ds| == |visited| && m < |visited|
    requires StepsCovered(succ, visited, ds, key, {}) && to in next(key(visited[m]))
    ensures By(visited, ds, key, to, ds[m] + 1)
  {
    var children := succ(visited[m]);
    assert to in KeysOf(children, key);
    var c :| c in children && key(c) == to;
    var i :| 0 <= i < |children| && children[i] == c;
    hide By;
    assert StepCovered(children, ds[m], visited, ds, key, {});
  }

  /** From one item the walk visits nearer keys first. Each visited item is the start, or a successor of an earlier
      one that is one step nearer; its depth is the least number of edges that lead to its key. */
  lemma NearestFirst<I(!new)>(succ: I -> seq<I>, key: I -> string, next: string -> set<string>, universe: set<string>,
                        start: I)
    returns (ds: seq<nat>)
    requires Follows(succ, key, next) && Closed(next, universe) && KeysOf([start], key) <= universe
    ensures var visited := Visit(succ, key, next, universe, [start], {});
      && |ds| == |visited| && Steady(ds)
      && (forall m :: 0 <= m < |visited| ==> Distance(next, key(start), key(visited[m]), ds[m]))
      && forall m: nat :: m < |visited| ==>
           (visited[m] == start && ds[m] == 0) || FromVisited(succ, visited, ds, m)
  {
    var visited := Visit(succ, key, next, universe, [start], {});
    ds := VisitDepths(succ, key, next, universe, [start], {}, [0]);
    VisitsOnce(succ, key, next, universe, [start], {});
    DeepParts(succ, key, start, visited, ds);
    hide *;
    forall m: nat | m < |visited| ensures Distance(next, key(start), key(visited[m]), ds[m]) {
      Nearest(succ, key, next, start, visited, ds, m);
    }
  }

  lemma DeepParts<I(!new)>(succ: I -> seq<I>, key: I -> string, start: I, visited: seq<I>, ds: seq<nat>)
    requires Deep(succ, key, [start], [0], {}, visited, ds)
    ensures |ds| == |visited| && Steady(ds) && Sources(succ, [start], [0], visited, ds)
    ensures QueueCovered([start], [0], visited, ds, key, {}) && StepsCovered(succ, visited, ds, key, {})
    ensures forall m: nat :: m < |visited| ==>
              (visited[m] == start && ds[m] == 0) || FromVisited(succ, visited, ds, m)
  {
    hide FromVisited, QueueCovered, StepsCovered;
  }

  lemma Nearest<I(!new)>(succ: I -> seq<I>, key: I -> string, next: string -> set<string>, start: I, visited: seq<I>,
                         ds: seq<nat>, m: nat)
    requires Follows(succ, key, next) && |ds| == |visited| && m < |visited| && DistinctKeys(visited, key)
    requires Sources(succ, [start], [0], visited, ds)
    requires QueueCovered([start], [0], visited, ds, key, {}) && StepsCovered(succ, visited, ds, key, {})
    ensures Distance(next, key(start), key(visited[m]), ds[m])
  {
    hide Follows, Sources, QueueCovered, StepsCovered, WayOf;
    var way := WayTo(succ, key, next, start, visited, ds, m);
    forall n: nat, path | WayOf(next, key(start), key(visited[m]), n, path) ensures ds[m] <= n {
      WithinWay(succ, key, next, start, visited, ds, key(visited[m]), n, path);
    }
  }
}
