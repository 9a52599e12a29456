/** Walks and balls in a graph given by its successor sets. */
module Walks {
  import opened Prelude

  /** `p` follows successors all the way. */
  ghost predicate IsWalk(succ: string -> set<string>, p: seq<string>) {
    |p| > 0 && forall i :: 0 <= i < |p| - 1 ==> p[i + 1] in succ(p[i])
  }

  ghost predicate WalkBetween(succ: string -> set<string>, a: string, b: string, p: seq<string>) {
    IsWalk(succ, p) && p[0] == a && p[|p| - 1] == b
  }

  lemma WalkExtends(succ: string -> set<string>, a: string, b: string, p: seq<string>, t: string)
    requires WalkBetween(succ, a, b, p) && t in succ(b)
    ensures WalkBetween(succ, a, t, p + [t])
  {
  }

  /** The nodes that some walk of at most `n` edges reaches from `start`. */
  ghost function Ball(succ: string -> set<string>, start: string, n: nat): set<string> {
    if n == 0 then {start} else Ball(succ, start, n - 1) + SuccOf(succ, Ball(succ, start, n - 1))
  }

  ghost function SuccOf(succ: string -> set<string>, nodes: set<string>): set<string> {
    set x, y | x in nodes && y in succ(x) :: y
  }

  lemma NextBall(succ: string -> set<string>, start: string, k: nat, x: string, t: string)
    requires x in Ball(succ, start, k) && t in succ(x)
    ensures t in Ball(succ, start, k + 1)
  {
  }

  lemma BallStep(succ: string -> set<string>, start: string, n: nat)
    ensures Ball(succ, start, n) <= Ball(succ, start, n + 1)
  {
    hide SuccOf;
  }

  lemma {:induction false} BallGrows(succ: string -> set<string>, start: string, m: nat, n: nat)
    requires m <= n
    ensures start in Ball(succ, start, n)
    ensures Ball(succ, start, m) <= Ball(succ, start, n)
  {
    hide SuccOf;
    if n == 0 {
      assert Ball(succ, start, 0) == {start};
    } else {
      hide Ball;
      BallStep(succ, start, n - 1);
      BallGrows(succ, start, if m < n then m else n - 1, n - 1);
    }
  }

  lemma {:induction false} WalkInBall(succ: string -> set<string>, p: seq<string>)
    requires IsWalk(succ, p)
    ensures p[|p| - 1] in Ball(succ, p[0], |p| - 1)
  {
    if |p| > 1 {
      WalkInBall(succ, p[..|p| - 1]);
    }
  }

  lemma {:induction false} BallHasWalk(succ: string -> set<string>, start: string, n: nat, v: string)
    returns (p: seq<string>)
    requires v in Ball(succ, start, n)
    ensures WalkBetween(succ, start, v, p) && |p| <= n + 1
  {
    if n == 0 {
      p := [start];
    } else if v in Ball(succ, start, n - 1) {
      p := BallHasWalk(succ, start, n - 1, v);
    } else {
      var x :| x in Ball(succ, start, n - 1) && v in succ(x);
      p := BallHasWalk(succ, start, n - 1, x);
      p := p + [v];
    }
  }

  /** A ball is exactly what walks of bounded length reach. */
  lemma BallIsWalks(succ: string -> set<string>, start: string, n: nat, v: string)
    ensures v in Ball(succ, start, n) <==> exists p :: WalkBetween(succ, start, v, p) && |p| <= n + 1
  {
    if v in Ball(succ, start, n) {
      var p := BallHasWalk(succ, start, n, v);
    }
    forall p | WalkBetween(succ, start, v, p) && |p| <= n + 1 ensures v in Ball(succ, start, n) {
      WalkInBall(succ, p);
      BallGrows(succ, start, |p| - 1, n);
    }
  }

  lemma {:induction false} ClosedBallIsAll(succ: string -> set<string>, start: string, k: nat, n: nat)
    requires SuccOf(succ, Ball(succ, start, k)) <= Ball(succ, start, k)
    ensures Ball(succ, start, n) <= Ball(succ, start, k)
  {
    hide SuccOf;
    if n <= k {
      BallGrows(succ, start, n, k);
    } else {
      ClosedBallIsAll(succ, start, k, n - 1);
      SuccGrows(succ, Ball(succ, start, n - 1), Ball(succ, start, k));
    }
  }

  lemma SuccGrows(succ: string -> set<string>, nodes: set<string>, more: set<string>)
    requires nodes <= more
    ensures SuccOf(succ, nodes) <= SuccOf(succ, more)
  {
  }

  function Reversed(p: seq<string>): seq<string> {
    seq(|p|, i requires 0 <= i < |p| => p[|p| - 1 - i])
  }

  lemma ReverseWalk(succ: string -> set<string>, pred: string -> set<string>, a: string, b: string, p: seq<string>)
    requires forall x, y :: y in succ(x) <==> x in pred(y)
    requires WalkBetween(succ, a, b, p)
    ensures WalkBetween(pred, b, a, Reversed(p))
  {
    var q := Reversed(p);
    forall i | 0 <= i < |q| - 1 ensures q[i + 1] in pred(q[i]) {
      var j := |p| - 2 - i;
      assert p[j + 1] in succ(p[j]);
    }
  }

  /** When `pred` is the transpose of `succ`, reaching is symmetric at every distance. */
  lemma ReachIsSymmetric(succ: string -> set<string>, pred: string -> set<string>, u: string, v: string, n: nat)
    requires forall x, y :: y in succ(x) <==> x in pred(y)
    ensures v in Ball(succ, u, n) <==> u in Ball(pred, v, n)
  {
    if v in Ball(succ, u, n) {
      var p := BallHasWalk(succ, u, n, v);
      ReverseWalk(succ, pred, u, v, p);
      BallIsWalks(pred, v, n, u);
    }
    if u in Ball(pred, v, n) {
      var p := BallHasWalk(pred, v, n, u);
      ReverseWalk(pred, succ, v, u, p);
      BallIsWalks(succ, u, n, v);
    }
  }

  // ---- the level sweep of `neighbors`

  /** Nearer nodes come first: whatever ball holds an entry holds all before it. */
  ghost predicate ByDistance(succ: string -> set<string>, start: string, result: seq<string>) {
    forall i, j, n: nat :: 0 <= i < j < |result| && result[j] in Ball(succ, start, n) ==>
      result[i] in Ball(succ, start, n)
  }

  /** Where the sweep stands while it expands the nodes at distance `k`. */
  ghost predicate Sweeping(succ: string -> set<string>, start: string, k: nat,
                           emitted: set<string>, result: seq<string>, next: seq<string>)
  {
    && start !in emitted
    && Ball(succ, start, k) <= emitted + {start} <= Ball(succ, start, k + 1)
    && (forall i, j :: 0 <= i < j < |result| ==> result[i] != result[j])
    && (forall x :: x in result <==> x in emitted)
    && ByDistance(succ, start, result)
    && (forall x :: x in next ==> x in emitted)
    && (forall x :: x in emitted && x !in Ball(succ, start, k) ==> x in next)
  }

  lemma Emit(succ: string -> set<string>, start: string, k: nat,
             emitted: set<string>, result: seq<string>, next: seq<string>, x: string, t: string)
    requires Sweeping(succ, start, k, emitted, result, next)
    requires x in Ball(succ, start, k) && t in succ(x) && t !in emitted && t != start
    requires t in Ball(succ, start, k + 1)
    ensures Sweeping(succ, start, k, emitted + {t}, result + [t], next + [t])
  {
    hide Ball;
    var r := result + [t];
    forall i, j, n: nat | 0 <= i < j < |r| && r[j] in Ball(succ, start, n) ensures r[i] in Ball(succ, start, n) {
      if j == |result| {
        if n <= k {
          BallGrows(succ, start, n, k);
        } else {
          BallGrows(succ, start, k + 1, n);
        }
        assert r[i] in result;
      }
    }
  }

  /** Expanding every node at distance `k` completes the next ball. */
  lemma LevelDone(succ: string -> set<string>, start: string, k: nat,
                  emitted: set<string>, result: seq<string>, next: seq<string>)
    requires Sweeping(succ, start, k, emitted, result, next)
    requires forall x :: x in Ball(succ, start, k) ==> succ(x) <= emitted + {start}
    ensures emitted + {start} == Ball(succ, start, k + 1)
    ensures Sweeping(succ, start, k + 1, emitted, result, [])
    ensures forall x :: x in next ==> x in Ball(succ, start, k + 1)
    ensures forall x :: x in Ball(succ, start, k + 1) && x !in Ball(succ, start, k) ==> x in next
  {
    BallGrows(succ, start, k, k + 1);
    BallGrows(succ, start, k + 1, k + 2);
    BallGrows(succ, start, k, k);
  }

  /** Where the sweep stands between two rounds. */
  ghost predicate LevelStart(succ: string -> set<string>, start: string, k: nat, visited: set<string>,
                             emitted: set<string>, result: seq<string>, frontier: seq<string>)
  {
    && Sweeping(succ, start, k, emitted, result, [])
    && emitted + {start} == Ball(succ, start, k)
    && visited == (if k == 0 then {} else Ball(succ, start, k - 1))
    && (forall x :: x in visited ==> succ(x) <= emitted + {start})
    && (forall x :: x in frontier ==> x in Ball(succ, start, k))
    && (forall x :: x in Ball(succ, start, k) && x !in visited ==> x in frontier)
    && (k == 0 ==> frontier == [start])
  }

  /** Where one round stands after the frontier nodes `done`. */
  ghost predicate Expanded(succ: string -> set<string>, start: string, k: nat, before: set<string>,
                           done: seq<string>, visited: set<string>, emitted: set<string>)
  {
    && visited == before + (set x | x in done)
    && visited <= Ball(succ, start, k)
    && Ball(succ, start, k) <= emitted + {start}
    && forall x :: x in visited ==> succ(x) <= emitted + {start}
  }

  lemma FirstRound(succ: string -> set<string>, start: string, k: nat, visited: set<string>,
                   emitted: set<string>, result: seq<string>, frontier: seq<string>)
    requires LevelStart(succ, start, k, visited, emitted, result, frontier)
    ensures Expanded(succ, start, k, visited, frontier[..0], visited, emitted)
  {
    if k > 0 {
      BallGrows(succ, start, k - 1, k);
    }
  }

  lemma RoundDone(succ: string -> set<string>, start: string, k: nat, before: set<string>, frontier: seq<string>,
                  visited: set<string>, emitted: set<string>, result: seq<string>, next: seq<string>)
    requires Sweeping(succ, start, k, emitted, result, next)
    requires Expanded(succ, start, k, before, frontier, visited, emitted)
    requires forall x :: x in Ball(succ, start, k) && x !in before ==> x in frontier
    ensures LevelStart(succ, start, k + 1, visited, emitted, result, next)
  {
    assert visited == Ball(succ, start, k);
    LevelDone(succ, start, k, emitted, result, next);
  }

  // ---- the queue of `path`

  type PathQueue = seq<(string, seq<string>)>

  /** Where the search stands: the first `m` entries of the queue lie at distance
      `k`, the others one further; every node of the ball that is neither waiting
      nor `open` has all its successors visited, and the target is not found. */
  ghost predicate Searching(succ: string -> set<string>, source: string, target: string, k: nat,
                            queue: PathQueue, m: nat, visited: set<string>, open: set<string>)
  {
    && m <= |queue|
    && (forall i :: 0 <= i < |queue| ==>
          WalkBetween(succ, source, queue[i].0, queue[i].1) && |queue[i].1| == if i < m then k + 1 else k + 2)
    && (forall i :: 0 <= i < m ==> queue[i].0 in Ball(succ, source, k))
    && (forall i :: m <= i < |queue| ==> queue[i].0 in visited)
    && Ball(succ, source, k) <= visited <= Ball(succ, source, k + 1)
    && (forall x :: x in visited ==> x in Ball(succ, source, k) || exists i :: m <= i < |queue| && queue[i].0 == x)
    && (forall x :: x in Ball(succ, source, k) ==>
          x in open || (exists i :: 0 <= i < m && queue[i].0 == x) || succ(x) <= visited)
    && target !in visited
  }

  lemma SearchStarts(succ: string -> set<string>, source: string, target: string)
    requires source != target
    ensures Searching(succ, source, target, 0, [(source, [source])], 1, {source}, {})
  {
    var queue: PathQueue := [(source, [source])];
    assert queue[0].0 == source;
    BallGrows(succ, source, 0, 1);
  }

  /** With no entry left at distance `k`, the ball is complete one step further. */
  lemma NextDistance(succ: string -> set<string>, source: string, target: string, k: nat,
                     queue: PathQueue, visited: set<string>)
    requires Searching(succ, source, target, k, queue, 0, visited, {})
    ensures Searching(succ, source, target, k + 1, queue, |queue|, visited, {})
  {
    assert visited == Ball(succ, source, k + 1);
    BallGrows(succ, source, k + 1, k + 2);
    forall x | x in Ball(succ, source, k + 1)
      ensures (exists i :: 0 <= i < |queue| && queue[i].0 == x) || succ(x) <= visited
    {
      if x in Ball(succ, source, k) {
        assert succ(x) <= visited;
      }
    }
  }

  lemma PopFront(succ: string -> set<string>, source: string, target: string, k: nat,
                 queue: PathQueue, m: nat, visited: set<string>)
    requires m > 0 && Searching(succ, source, target, k, queue, m, visited, {})
    ensures Searching(succ, source, target, k, queue[1..], m - 1, visited, {queue[0].0})
  {
    var rest := queue[1..];
    forall x | x in visited
      ensures x in Ball(succ, source, k) || exists i :: m - 1 <= i < |rest| && rest[i].0 == x
    {
      if x !in Ball(succ, source, k) {
        var i :| m <= i < |queue| && queue[i].0 == x;
        assert rest[i - 1].0 == x;
      }
    }
    forall x | x in Ball(succ, source, k)
      ensures x == queue[0].0 || (exists i :: 0 <= i < m - 1 && rest[i].0 == x) || succ(x) <= visited
    {
      if i :| 0 <= i < m && queue[i].0 == x && x != queue[0].0 {
        assert rest[i - 1].0 == x;
      }
    }
  }

  lemma PushBack(succ: string -> set<string>, source: string, target: string, k: nat,
                 queue: PathQueue, m: nat, visited: set<string>, current: string, path: seq<string>, t: string)
    requires Searching(succ, source, target, k, queue, m, visited, {current})
    requires current in Ball(succ, source, k) && t in succ(current) && t != target
    requires WalkBetween(succ, source, current, path) && |path| == k + 1
    ensures Searching(succ, source, target, k, queue + [(t, path + [t])], m, visited + {t}, {current})
  {
    var longer := queue + [(t, path + [t])];
    WalkExtends(succ, source, current, path, t);
    forall x | x in visited + {t}
      ensures x in Ball(succ, source, k) || exists i :: m <= i < |longer| && longer[i].0 == x
    {
      if x == t {
        assert longer[|queue|].0 == x;
      } else if x !in Ball(succ, source, k) {
        var i :| m <= i < |queue| && queue[i].0 == x;
        assert longer[i].0 == x;
      }
    }
    forall x | x in Ball(succ, source, k)
      ensures x in {current} || (exists i :: 0 <= i < m && longer[i].0 == x) || succ(x) <= visited + {t}
    {
      if i :| 0 <= i < m && queue[i].0 == x {
        assert longer[i].0 == x;
      }
    }
  }

  lemma CloseNode(succ: string -> set<string>, source: string, target: string, k: nat,
                  queue: PathQueue, m: nat, visited: set<string>, current: string)
    requires Searching(succ, source, target, k, queue, m, visited, {current}) && succ(current) <= visited
    ensures Searching(succ, source, target, k, queue, m, visited, {})
  {
  }

  /** No walk to the target is shorter than what the search is about to try. */
  lemma NoneNearer(succ: string -> set<string>, source: string, target: string, k: nat)
    requires target !in Ball(succ, source, k)
    ensures forall p :: WalkBetween(succ, source, target, p) ==> |p| >= k + 2
  {
    forall p | WalkBetween(succ, source, target, p) ensures |p| >= k + 2 {
      WalkInBall(succ, p);
      if |p| - 1 <= k {
        BallGrows(succ, source, |p| - 1, k);
      }
    }
  }

  /** What `path` answers: a walk within `depth` that no walk beats in length, or
      nothing, and then no walk within `depth` exists. */
  ghost predicate ShortestPath(succ: string -> set<string>, source: string, target: string,
                               depth: nat, found: Option<seq<string>>)
  {
    match found
    case Some(path) =>
      && WalkBetween(succ, source, target, path) && |path| - 1 <= depth
      && forall p :: WalkBetween(succ, source, target, p) ==> |path| <= |p|
    case None =>
      forall p :: WalkBetween(succ, source, target, p) ==> |p| - 1 > depth
  }

  lemma StandingStill(succ: string -> set<string>, source: string, depth: nat)
    ensures ShortestPath(succ, source, source, depth, Some([source]))
  {
  }

  lemma TooFar(succ: string -> set<string>, source: string, target: string, k: nat,
               queue: PathQueue, m: nat, visited: set<string>, depth: nat)
    requires m > 0 && Searching(succ, source, target, k, queue, m, visited, {}) && |queue[0].1| > depth
    ensures ShortestPath(succ, source, target, depth, None)
  {
    NoneNearer(succ, source, target, k);
  }

  lemma FoundShortest(succ: string -> set<string>, source: string, target: string, k: nat,
                      queue: PathQueue, m: nat, visited: set<string>, depth: nat, path: seq<string>)
    requires m > 0 && Searching(succ, source, target, k, queue, m, visited, {}) && |queue[0].1| <= depth
    requires WalkBetween(succ, source, target, path) && |path| == k + 2
    ensures ShortestPath(succ, source, target, depth, Some(path))
  {
    NoneNearer(succ, source, target, k);
  }

  /** The distance at which the front of the queue waits. */
  lemma WaitingDistance(succ: string -> set<string>, source: string, target: string, k: nat,
                        queue: PathQueue, m: nat, visited: set<string>) returns (k': nat, m': nat)
    requires queue != [] && Searching(succ, source, target, k, queue, m, visited, {})
    ensures m' > 0 && Searching(succ, source, target, k', queue, m', visited, {})
  {
    if m == 0 {
      NextDistance(succ, source, target, k, queue, visited);
      k', m' := k + 1, |queue|;
    } else {
      k', m' := k, m;
    }
  }

  /** An empty queue means every reachable node was visited. */
  lemma SearchExhausted(succ: string -> set<string>, source: string, target: string, k: nat, m: nat,
                        visited: set<string>)
    requires Searching(succ, source, target, k, [], m, visited, {})
    ensures forall p :: !WalkBetween(succ, source, target, p)
  {
    forall p ensures !WalkBetween(succ, source, target, p) {
      if WalkBetween(succ, source, target, p) {
        WalkInBall(succ, p);
        ClosedBallIsAll(succ, source, k, |p| - 1);
      }
    }
  }

  lemma NowhereToGo(succ: string -> set<string>, source: string, target: string, k: nat, m: nat, visited: set<string>,
                    depth: nat)
    requires Searching(succ, source, target, k, [], m, visited, {})
    ensures ShortestPath(succ, source, target, depth, None)
  {
    SearchExhausted(succ, source, target, k, m, visited);
    hide Searching, WalkBetween;
  }

  // ---- the levels of `subgraph`

  ghost predicate LevelOf(succ: string -> set<string>, root: string, k: nat, nodes: set<string>,
                          frontier: seq<string>)
  {
    && nodes == (if k == 0 then {} else Ball(succ, root, k - 1))
    && (forall x :: x in frontier ==> x in Ball(succ, root, k))
    && (forall x :: x in Ball(succ, root, k) && x !in nodes ==> x in frontier)
  }

  ghost predicate NextLevel(succ: string -> set<string>, root: string, k: nat, before: set<string>,
                            done: seq<string>, nodes: set<string>, next: seq<string>)
  {
    && nodes == before + (set x | x in done)
    && nodes <= Ball(succ, root, k)
    && (forall x :: x in next ==> x in Ball(succ, root, k + 1))
    && (forall x, t :: x in nodes && t in succ(x) ==> t in Ball(succ, root, k) || t in next)
  }

  lemma LevelNodesAreNear(succ: string -> set<string>, root: string, k: nat, nodes: set<string>, frontier: seq<string>)
    requires LevelOf(succ, root, k, nodes, frontier)
    ensures NextLevel(succ, root, k, nodes, [], nodes, [])
  {
    if k > 0 {
      BallGrows(succ, root, k - 1, k);
    }
  }

  lemma NextLevelStep(succ: string -> set<string>, root: string, k: nat, before: set<string>,
                      done: seq<string>, nodes: set<string>, next: seq<string>, node: string, next': seq<string>)
    requires NextLevel(succ, root, k, before, done, nodes, next) && node in Ball(succ, root, k)
    requires node in nodes ==> next' == next
    requires node !in nodes ==>
               && (forall x :: x in next' ==> x in next || x in succ(node))
               && (forall x :: x in next || (x in succ(node) && x !in Ball(succ, root, k)) ==> x in next')
    ensures NextLevel(succ, root, k, before, done + [node], nodes + {node}, next')
  {
    forall x, t | x in nodes + {node} && t in succ(x) ensures t in Ball(succ, root, k) || t in next' {
    }
  }

  lemma NextLevelDone(succ: string -> set<string>, root: string, k: nat, before: set<string>,
                      frontier: seq<string>, nodes: set<string>, next: seq<string>)
    requires LevelOf(succ, root, k, before, frontier)
    requires NextLevel(succ, root, k, before, frontier, nodes, next)
    ensures LevelOf(succ, root, k + 1, nodes, next)
  {
    assert nodes == Ball(succ, root, k);
  }
}
