/** The queue-and-seen walk that config discovery, the edge walk and trace analysis share: which items
    it visits, in which order, and that they are exactly the reachable ones. */
module BreadthFirst {
  import opened Collections

  /** Following an item leads to items whose keys the graph lists for its key. */
  ghost predicate Follows<I(!new)>(succ: I -> seq<I>, key: I -> string, next: string -> set<string>) {
    forall i: I :: KeysOf(succ(i), key) == next(key(i))
  }

  ghost function KeysOf<I>(items: seq<I>, key: I -> string): set<string> {
    set i | i in items :: key(i)
  }

  ghost predicate Closed(next: string -> set<string>, universe: set<string>) {
    forall k :: k in universe ==> next(k) <= universe
  }

  /** The items visited from a queue on: an item whose key was seen is dropped, any other is visited and
      its successors queue up at the end. */
  ghost function Visit<I(!new)>(succ: I -> seq<I>, key: I -> string, next: string -> set<string>,
                          universe: set<string>, queue: seq<I>, seen: set<string>): seq<I>
    requires Follows(succ, key, next) && Closed(next, universe)
    requires KeysOf(queue, key) <= universe
    decreases |universe - seen|, |queue|
  {
    if queue == [] then []
    else
      var item := queue[0];
      assert key(item) in KeysOf(queue, key);
      if key(item) in seen then
        TailKeys(queue, key);
        Visit(succ, key, next, universe, queue[1..], seen)
      else
        TailKeys(queue, key);
        QueuedKeys(queue[1..], succ(item), key);
        Fewer(universe, seen, key(item));
        [item] + Visit(succ, key, next, universe, queue[1..] + succ(item), seen + {key(item)})
  }

  lemma TailKeys<I>(queue: seq<I>, key: I -> string)
    requires queue != []
    ensures KeysOf(queue, key) == {key(queue[0])} + KeysOf(queue[1..], key)
  {
    assert queue == [queue[0]] + queue[1..];
  }

  lemma QueuedKeys<I>(a: seq<I>, b: seq<I>, key: I -> string)
    ensures KeysOf(a + b, key) == KeysOf(a, key) + KeysOf(b, key)
  {
  }

  // ---------------------------------------------------------------- one step at a time

  lemma VisitSeen<I(!new)>(succ: I -> seq<I>, key: I -> string, next: string -> set<string>,
                     universe: set<string>, queue: seq<I>, seen: set<string>)
    requires Follows(succ, key, next) && Closed(next, universe) && KeysOf(queue, key) <= universe
    requires queue != [] && key(queue[0]) in seen
    ensures KeysOf(queue[1..], key) <= universe
    ensures Visit(succ, key, next, universe, queue, seen) == Visit(succ, key, next, universe, queue[1..], seen)
  {
    TailKeys(queue, key);
    hide Follows, Closed, KeysOf;
  }

  lemma VisitNew<I(!new)>(succ: I -> seq<I>, key: I -> string, next: string -> set<string>,
                    universe: set<string>, queue: seq<I>, seen: set<string>)
    requires Follows(succ, key, next) && Closed(next, universe) && KeysOf(queue, key) <= universe
    requires queue != [] && key(queue[0]) !in seen
    ensures key(queue[0]) in universe
    ensures KeysOf(queue[1..] + succ(queue[0]), key) <= universe
    ensures Visit(succ, key, next, universe, queue, seen)
            == [queue[0]] + Visit(succ, key, next, universe, queue[1..] + succ(queue[0]), seen + {key(queue[0])})
  {
    TailKeys(queue, key);
    QueuedKeys(queue[1..], succ(queue[0]), key);
    hide Follows, Closed, KeysOf;
  }

  // ---------------------------------------------------------------- once each

  predicate DistinctKeys<I>(items: seq<I>, key: I -> string) {
    forall i, j :: 0 <= i < j < |items| ==> key(items[i]) != key(items[j])
  }

  lemma DistinctCons<I>(item: I, items: seq<I>, key: I -> string)
    requires DistinctKeys(items, key) && key(item) !in KeysOf(items, key)
    ensures DistinctKeys([item] + items, key)
    ensures KeysOf([item] + items, key) == {key(item)} + KeysOf(items, key)
  {
    forall i | 0 <= i < |items| ensures key(items[i]) != key(item) {
      assert items[i] in items;
    }
    QueuedKeys([item], items, key);
    assert KeysOf([item], key) == {key(item)};
  }

  /** No key is visited twice, and none that was seen before. */
  lemma {:induction false} VisitsOnce<I(!new)>(succ: I -> seq<I>, key: I -> string, next: string -> set<string>,
                                         universe: set<string>, queue: seq<I>, seen: set<string>)
    requires Follows(succ, key, next) && Closed(next, universe) && KeysOf(queue, key) <= universe
    ensures DistinctKeys(Visit(succ, key, next, universe, queue, seen), key)
    ensures KeysOf(Visit(succ, key, next, universe, queue, seen), key) !! seen
    ensures KeysOf(Visit(succ, key, next, universe, queue, seen), key) <= universe
    decreases |universe - seen|, |queue|
  {
    if queue != [] {
      var k := key(queue[0]);
      hide Follows, Closed, KeysOf, Visit, DistinctKeys;
      if k in seen {
        VisitSeen(succ, key, next, universe, queue, seen);
        VisitsOnce(succ, key, next, universe, queue[1..], seen);
      } else {
        VisitNew(succ, key, next, universe, queue, seen);
        Fewer(universe, seen, k);
        VisitsOnce(succ, key, next, universe, queue[1..] + succ(queue[0]), seen + {k});
        DistinctCons(queue[0], Visit(succ, key, next, universe, queue[1..] + succ(queue[0]), seen + {k}), key);
      }
    } else {
      assert KeysOf(Visit(succ, key, next, universe, queue, seen), key) == {};
    }
  }

  // ---------------------------------------------------------------- every reachable key

  /** A chain of edges. */
  predicate Chain(next: string -> set<string>, path: seq<string>) {
    path != [] && forall i :: 0 <= i < |path| - 1 ==> path[i + 1] in next(path[i])
  }

  ghost predicate Reaches(next: string -> set<string>, from: string, to: string) {
    exists path :: Chain(next, path) && path[0] == from && path[|path| - 1] == to
  }

  lemma ReachesSelf(next: string -> set<string>, k: string)
    ensures Reaches(next, k, k)
  {
    assert Chain(next, [k]) && [k][0] == k;
  }

  lemma ReachesOn(next: string -> set<string>, from: string, to: string, onward: string)
    requires Reaches(next, from, to) && onward in next(to)
    ensures Reaches(next, from, onward)
  {
    var path :| Chain(next, path) && path[0] == from && path[|path| - 1] == to;
    var longer := path + [onward];
    assert forall i :: 0 <= i < |path| ==> longer[i] == path[i];
    assert longer[|path|] == onward;
    assert Chain(next, longer);
    assert longer[0] == from && longer[|longer| - 1] == onward;
  }

  /** A set that holds a key and all edges out of itself holds all the key reaches. */
  lemma {:induction false} ClosedHolds(next: string -> set<string>, path: seq<string>, s: set<string>)
    requires Chain(next, path) && Closed(next, s) && path[0] in s
    ensures path[|path| - 1] in s
    decreases |path|
  {
    if |path| > 1 {
      var rest := path[1..];
      assert rest[0] == path[1] && path[1] in next(path[0]);
      assert forall i :: 0 <= i < |rest| ==> rest[i] == path[i + 1];
      ClosedHolds(next, rest, s);
    }
  }

  /** Whatever is visited is reached from a key all queued keys are reached from. */
  lemma {:induction false} VisitedReached<I(!new)>(succ: I -> seq<I>, key: I -> string, next: string -> set<string>,
                                             universe: set<string>, queue: seq<I>, seen: set<string>, root: string)
    requires Follows(succ, key, next) && Closed(next, universe) && KeysOf(queue, key) <= universe
    requires forall k :: k in KeysOf(queue, key) ==> Reaches(next, root, k)
    ensures forall k :: k in KeysOf(Visit(succ, key, next, universe, queue, seen), key) ==> Reaches(next, root, k)
    decreases |universe - seen|, |queue|
  {
    if queue != [] {
      var k, rest := key(queue[0]), queue[1..] + succ(queue[0]);
      TailKeys(queue, key);
      QueuedKeys(queue[1..], succ(queue[0]), key);
      assert KeysOf(succ(queue[0]), key) == next(k);
      hide Follows, Closed, KeysOf, Visit, Reaches;
      if k in seen {
        VisitSeen(succ, key, next, universe, queue, seen);
        VisitedReached(succ, key, next, universe, queue[1..], seen, root);
      } else {
        VisitNew(succ, key, next, universe, queue, seen);
        Fewer(universe, seen, k);
        forall j | j in KeysOf(rest, key) ensures Reaches(next, root, j) {
          if j in next(k) {
            ReachesOn(next, root, k, j);
          }
        }
        VisitedReached(succ, key, next, universe, rest, seen + {k}, root);
        ConsKeys(queue[0], Visit(succ, key, next, universe, rest, seen + {k}), key);
      }
    } else {
      assert KeysOf(Visit(succ, key, next, universe, queue, seen), key) == {};
    }
  }

  lemma ConsKeys<I>(item: I, items: seq<I>, key: I -> string)
    ensures KeysOf([item] + items, key) == {key(item)} + KeysOf(items, key)
  {
    QueuedKeys([item], items, key);
    assert KeysOf([item], key) == {key(item)};
  }

  /** All edges out of `inner` stay inside `outer`. */
  ghost predicate EdgesWithin(next: string -> set<string>, inner: set<string>, outer: set<string>) {
    forall k :: k in inner ==> next(k) <= outer
  }

  /** Nothing is missed: queued keys and successors of visited keys end up visited or were seen. */
  lemma {:induction false} VisitCovers<I(!new)>(succ: I -> seq<I>, key: I -> string, next: string -> set<string>,
                                          universe: set<string>, queue: seq<I>, seen: set<string>)
    requires Follows(succ, key, next) && Closed(next, universe) && KeysOf(queue, key) <= universe
    ensures KeysOf(queue, key) <= seen + KeysOf(Visit(succ, key, next, universe, queue, seen), key)
    ensures EdgesWithin(next, KeysOf(Visit(succ, key, next, universe, queue, seen), key),
                        seen + KeysOf(Visit(succ, key, next, universe, queue, seen), key))
    decreases |universe - seen|, |queue|
  {
    if queue != [] {
      var k, rest := key(queue[0]), queue[1..] + succ(queue[0]);
      TailKeys(queue, key);
      QueuedKeys(queue[1..], succ(queue[0]), key);
      assert KeysOf(succ(queue[0]), key) == next(k);
      hide Follows, Closed, KeysOf, Visit;
      if k in seen {
        VisitSeen(succ, key, next, universe, queue, seen);
        VisitCovers(succ, key, next, universe, queue[1..], seen);
      } else {
        VisitNew(succ, key, next, universe, queue, seen);
        Fewer(universe, seen, k);
        VisitCovers(succ, key, next, universe, rest, seen + {k});
        var visited := Visit(succ, key, next, universe, rest, seen + {k});
        ConsKeys(queue[0], visited, key);
        EdgesMore(next, k, KeysOf(visited, key), seen);
      }
    } else {
      assert KeysOf(queue, key) == {} && KeysOf(Visit(succ, key, next, universe, queue, seen), key) == {};
    }
  }

  lemma EdgesMore(next: string -> set<string>, k: string, visited: set<string>, seen: set<string>)
    requires EdgesWithin(next, visited, seen + {k} + visited) && next(k) <= seen + {k} + visited
    ensures EdgesWithin(next, {k} + visited, seen + ({k} + visited))
  {
    assert seen + {k} + visited == seen + ({k} + visited);
  }

  /** From one item, the walk visits exactly the reachable keys. */
  lemma VisitsExactly<I(!new)>(succ: I -> seq<I>, key: I -> string, next: string -> set<string>,
                         universe: set<string>, root: I, k: string)
    requires Follows(succ, key, next) && Closed(next, universe) && key(root) in universe
    ensures KeysOf([root], key) <= universe
    ensures k in KeysOf(Visit(succ, key, next, universe, [root], {}), key) <==> Reaches(next, key(root), k)
  {
    assert KeysOf([root], key) == {key(root)};
    var found := KeysOf(Visit(succ, key, next, universe, [root], {}), key);
    ReachesSelf(next, key(root));
    VisitedReached(succ, key, next, universe, [root], {}, key(root));
    VisitCovers(succ, key, next, universe, [root], {});
    assert {} + found == found;
    assert Closed(next, found);
    if Reaches(next, key(root), k) {
      var path :| Chain(next, path) && path[0] == key(root) && path[|path| - 1] == k;
      ClosedHolds(next, path, found);
    }
  }

  /** Every visited item was queued to begin with or is a successor of a visited one. */
  ghost predicate Originates<I(!new)>(succ: I -> seq<I>, queue: seq<I>, visited: seq<I>) {
    forall i :: i in visited ==> i in queue || exists j :: j in visited && i in succ(j)
  }

  lemma {:induction false} VisitOrigins<I(!new)>(succ: I -> seq<I>, key: I -> string, next: string -> set<string>,
                                           universe: set<string>, queue: seq<I>, seen: set<string>)
    requires Follows(succ, key, next) && Closed(next, universe) && KeysOf(queue, key) <= universe
    ensures Originates(succ, queue, Visit(succ, key, next, universe, queue, seen))
    decreases |universe - seen|, |queue|
  {
    if queue != [] {
      var k, rest := key(queue[0]), queue[1..] + succ(queue[0]);
      hide Follows, Closed, KeysOf, Visit, Originates;
      if k in seen {
        VisitSeen(succ, key, next, universe, queue, seen);
        VisitOrigins(succ, key, next, universe, queue[1..], seen);
        OriginTail(succ, queue, Visit(succ, key, next, universe, queue[1..], seen));
      } else {
        VisitNew(succ, key, next, universe, queue, seen);
        Fewer(universe, seen, k);
        VisitOrigins(succ, key, next, universe, rest, seen + {k});
        OriginCons(succ, queue, Visit(succ, key, next, universe, rest, seen + {k}));
      }
    }
  }

  lemma OriginTail<I(!new)>(succ: I -> seq<I>, queue: seq<I>, visited: seq<I>)
    requires queue != [] && Originates(succ, queue[1..], visited)
    ensures Originates(succ, queue, visited)
  {
    forall i | i in queue[1..] ensures i in queue {
    }
  }

  lemma OriginCons<I(!new)>(succ: I -> seq<I>, queue: seq<I>, visited: seq<I>)
    requires queue != [] && Originates(succ, queue[1..] + succ(queue[0]), visited)
    ensures Originates(succ, queue, [queue[0]] + visited)
  {
    var all := [queue[0]] + visited;
    assert all[0] == queue[0];
    forall i | i in all
      ensures i in queue || exists j :: j in all && i in succ(j)
    {
      if i in visited && i !in queue {
        if i in queue[1..] + succ(queue[0]) {
          assert i in succ(queue[0]);
        } else {
          var j :| j in visited && i in succ(j);
          assert j in all;
        }
      }
    }
  }

  /** Two ways of following items visit the same when they agree on everything the first one visits. */
  lemma {:induction false} VisitAgrees<I(!new)>(succ: I -> seq<I>, succ': I -> seq<I>, key: I -> string,
                                          next: string -> set<string>, next': string -> set<string>,
                                          universe: set<string>, universe': set<string>,
                                          queue: seq<I>, seen: set<string>)
    requires Follows(succ, key, next) && Closed(next, universe) && KeysOf(queue, key) <= universe
    requires Follows(succ', key, next') && Closed(next', universe') && KeysOf(queue, key) <= universe'
    requires forall i :: i in Visit(succ, key, next, universe, queue, seen) ==> succ(i) == succ'(i)
    ensures Visit(succ, key, next, universe, queue, seen) == Visit(succ', key, next', universe', queue, seen)
    decreases |universe - seen|, |queue|
  {
    if queue != [] {
      var k, rest := key(queue[0]), queue[1..] + succ(queue[0]);
      hide Follows, Closed, KeysOf, Visit;
      if k in seen {
        VisitSeen(succ, key, next, universe, queue, seen);
        VisitSeen(succ', key, next', universe', queue, seen);
        VisitAgrees(succ, succ', key, next, next', universe, universe', queue[1..], seen);
      } else {
        VisitNew(succ, key, next, universe, queue, seen);
        VisitNew(succ', key, next', universe', queue, seen);
        Fewer(universe, seen, k);
        assert (Visit(succ, key, next, universe, queue, seen))[0] == queue[0];
        assert succ(queue[0]) == succ'(queue[0]);
        VisitAgrees(succ, succ', key, next, next', universe, universe', rest, seen + {k});
      }
    } else {
      assert Visit(succ, key, next, universe, queue, seen) == [];
      assert Visit(succ', key, next', universe', queue, seen) == [];
    }
  }
}
