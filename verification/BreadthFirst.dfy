/**
 Breadth-first search over any finitely branching structure: the levels, and a search in mid-run.
 `kids` gives a node's children, `hit` what a node answers.
 */
module BreadthFirst {
  import opened Collections
  import opened Options

  function Kids<T>(nodes: seq<T>, kids: T -> seq<T>): seq<T> {
    if nodes == [] then [] else Kids(nodes[..|nodes| - 1], kids) + kids(nodes[|nodes| - 1])
  }

  /** The nodes at depth `d`, left to right. */
  function Level<T>(root: T, kids: T -> seq<T>, d: nat): seq<T> {
    if d == 0 then [root] else Kids(Level(root, kids, d - 1), kids)
  }

  /** All levels above depth `d`, top down. */
  function Above<T>(root: T, kids: T -> seq<T>, d: nat): seq<T> {
    if d == 0 then [] else Above(root, kids, d - 1) + Level(root, kids, d - 1)
  }

  function FirstHit<T, R>(nodes: seq<T>, hit: T -> Option<R>): Option<R> {
    if nodes == [] then None
    else
      var earlier := FirstHit(nodes[..|nodes| - 1], hit);
      if earlier.Some? then earlier else hit(nodes[|nodes| - 1])
  }

  /** The first `cap` nodes, in level order, of those above depth `floor`. */
  function Examined<T>(root: T, kids: T -> seq<T>, floor: nat, cap: nat): seq<T> {
    Take(Above(root, kids, floor), cap)
  }

  function Take<T>(s: seq<T>, n: nat): seq<T> {
    if |s| <= n then s else s[..n]
  }

  function Tag<T>(nodes: seq<T>, d: int): (tagged: seq<(T, int)>)
    ensures |tagged| == |nodes| && forall k :: 0 <= k < |nodes| ==> tagged[k] == (nodes[k], d)
  {
    seq(|nodes|, k requires 0 <= k < |nodes| => (nodes[k], d))
  }

  // ------------------------------------------------------------------
  // A search in mid-run
  // ------------------------------------------------------------------

  /**
   `seen` is every node popped so far: the levels above `d` and the part `done` of level `d`. None of them
   was a hit; the queue is the rest of level `d` and the children of `done`.
   */
  ghost predicate Searching<T, R>(
    root: T, kids: T -> seq<T>, hit: T -> Option<R>, floor: nat,
    queue: seq<(T, int)>, seen: seq<T>, d: nat, done: seq<T>, rest: seq<T>)
  {
    && Level(root, kids, d) == done + rest
    && queue == Tag(rest, d) + Tag(Kids(done, kids), d + 1)
    && seen == Above(root, kids, d) + done
    && FirstHit(seen, hit) == None
    && d <= floor
    && (d == floor ==> done == [])
  }

  /** The queue, and the nodes popped so far, are those of some moment of the search. */
  ghost predicate Midway<T(!new), R>(
    root: T, kids: T -> seq<T>, hit: T -> Option<R>, floor: nat, queue: seq<(T, int)>, seen: seq<T>)
  {
    exists d: nat, done, rest :: Searching(root, kids, hit, floor, queue, seen, d, done, rest)
  }

  lemma {:induction false} DepthIsNatural<T(!new), R>(
    root: T, kids: T -> seq<T>, hit: T -> Option<R>, floor: nat, queue: seq<(T, int)>, seen: seq<T>)
    requires Midway(root, kids, hit, floor, queue, seen) && queue != []
    ensures queue[0].1 >= 0
  {
    var d: nat, done, rest :| Searching(root, kids, hit, floor, queue, seen, d, done, rest);
  }

  lemma {:induction false} Starts<T(!new), R>(root: T, kids: T -> seq<T>, hit: T -> Option<R>, floor: nat)
    ensures Midway(root, kids, hit, floor, [(root, 0)], [])
  {
    assert Searching(root, kids, hit, floor, [(root, 0)], [], 0, [], [root]);
  }

  /**
   What one pop comes to: past the depth or the node cap there is no hit; at a hit it is the first; else the
   search goes on.
   */
  ghost predicate StepsOn<T(!new), R>(
    root: T, kids: T -> seq<T>, hit: T -> Option<R>, floor: nat, cap: nat, queue: seq<(T, int)>, seen: seq<T>)
    requires queue != []
  {
    var (node, depth) := queue[0];
    if depth >= floor || |seen| == cap then FirstHit(Examined(root, kids, floor, cap), hit) == None
    else if hit(node).Some? then FirstHit(Examined(root, kids, floor, cap), hit) == hit(node)
    else Midway(root, kids, hit, floor, queue[1..] + Tag(kids(node), depth + 1), seen + [node])
  }

  lemma {:induction false} Step<T(!new), R>(
    root: T, kids: T -> seq<T>, hit: T -> Option<R>, floor: nat, cap: nat, queue: seq<(T, int)>, seen: seq<T>)
    requires Midway(root, kids, hit, floor, queue, seen) && queue != [] && |seen| <= cap
    ensures StepsOn(root, kids, hit, floor, cap, queue, seen)
  {
    var d: nat, done, rest :| Searching(root, kids, hit, floor, queue, seen, d, done, rest);
    if rest == [] {
      NextLevel(root, kids, hit, floor, queue, seen, d, done);
      StepFrom(root, kids, hit, floor, cap, queue, seen, d + 1, [], Kids(done, kids));
    } else {
      StepFrom(root, kids, hit, floor, cap, queue, seen, d, done, rest);
    }
  }

  lemma {:induction false} StepFrom<T(!new), R>(
    root: T, kids: T -> seq<T>, hit: T -> Option<R>, floor: nat, cap: nat,
    queue: seq<(T, int)>, seen: seq<T>, d: nat, done: seq<T>, rest: seq<T>)
    requires Searching(root, kids, hit, floor, queue, seen, d, done, rest) && rest != []
    requires queue != [] && |seen| <= cap
    ensures StepsOn(root, kids, hit, floor, cap, queue, seen)
  {
    if d >= floor || |seen| == cap {
      StopsAtCap(root, kids, hit, floor, cap, queue, seen, d, done, rest);
    } else if hit(rest[0]).Some? {
      StopsAtHit(root, kids, hit, floor, cap, queue, seen, d, done, rest);
    } else {
      MovesOn(root, kids, hit, floor, queue, seen, d, done, rest);
    }
  }

  lemma {:induction false} Ends<T(
    !new) , R>(root: T, kids: T -> seq<T>, hit: T -> Option<R>, floor: nat, cap: nat, seen: seq<T>)
    requires Midway(root, kids, hit, floor, [], seen) && |seen| <= cap
    ensures FirstHit(Examined(root, kids, floor, cap), hit) == None
  {
    var d: nat, done, rest :| Searching(root, kids, hit, floor, [], seen, d, done, rest);
    StopsWhenEmpty(root, kids, hit, floor, cap, seen, d, done, rest);
  }

  lemma {:induction false} NextLevel<T, R>(
    root: T, kids: T -> seq<T>, hit: T -> Option<R>, floor: nat,
    queue: seq<(T, int)>, seen: seq<T>, d: nat, done: seq<T>)
    requires Searching(root, kids, hit, floor, queue, seen, d, done, []) && queue != []
    ensures Kids(done, kids) != []
    ensures Searching(root, kids, hit, floor, queue, seen, d + 1, [], Kids(done, kids))
  {
    assert done + [] == done == Level(root, kids, d);
    assert Above(root, kids, d + 1) + [] == seen;
    assert Tag<T>([], d) == [] && Tag(Kids<T>([], kids), d + 2) == [];
  }

  lemma {:induction false} MovesOn<T, R>(
    root: T, kids: T -> seq<T>, hit: T -> Option<R>, floor: nat,
    queue: seq<(T, int)>, seen: seq<T>, d: nat, done: seq<T>, rest: seq<T>)
    requires Searching(root, kids, hit, floor, queue, seen, d, done, rest) && rest != [] && queue != []
    requires d < floor && hit(rest[0]) == None
    ensures Searching(root, kids, hit, floor, queue[1..] + Tag(kids(rest[0]), d + 1),
              seen + [rest[0]], d, done + [rest[0]], rest[1..])
  {
    var node := rest[0];
    HeadMoves(done, rest);
    Associate(Above(root, kids, d), done, [node]);
  }

  lemma {:induction false} HeadMoves<T>(done: seq<T>, rest: seq<T>)
    requires rest != []
    ensures done + rest == (done + [rest[0]]) + rest[1..]
  {
  }

  lemma {:induction false} FirstHitSplit<T, R>(a: seq<T>, b: seq<T>, hit: T -> Option<R>)
    ensures FirstHit(a + b, hit) == if FirstHit(a, hit).Some? then FirstHit(a, hit) else FirstHit(b, hit)
    decreases |b|
  {
    if b != [] {
      var n := |b| - 1;
      assert (a + b)[..|a + b| - 1] == a + b[..n];
      FirstHitSplit(a, b[..n], hit);
    } else {
      assert a + b == a;
    }
  }

  lemma {:induction false} AboveSplit<T>(root: T, kids: T -> seq<T>, d: nat, e: nat) returns (below: seq<T>)
    requires d <= e
    ensures Above(root, kids, e) == Above(root, kids, d) + below
    decreases e
  {
    if d < e {
      below := AboveSplit(root, kids, d, e - 1);
      Associate(Above(root, kids, d), below, Level(root, kids, e - 1));
      below := below + Level(root, kids, e - 1);
    } else {
      below := [];
    }
  }

  /** What has been popped, and the rest of its level, starts the level order. */
  lemma {:induction false} OrderStarts<T>(
    root: T, kids: T -> seq<T>, floor: nat, seen: seq<T>, d: nat, done: seq<T>, rest: seq<T>)
    returns (below: seq<T>)
    requires Level(root, kids, d) == done + rest && seen == Above(root, kids, d) + done && d < floor
    ensures Above(root, kids, floor) == seen + (rest + below)
  {
    below := AboveSplit(root, kids, d + 1, floor);
    Associate(Above(root, kids, d), done, rest);
    Associate(seen, rest, below);
  }

  lemma {:induction false} TakeSeen<T>(seen: seq<T>, rest: seq<T>, n: nat)
    requires |seen| <= n
    ensures Take(seen + rest, n) == seen + Take(rest, n - |seen|)
  {
  }

  lemma {:induction false} FirstOfPrefix<T, R>(seen: seq<T>, node: T, below: seq<T>, cap: nat, hit: T -> Option<R>)
    requires FirstHit(seen, hit) == None && hit(node).Some? && |seen| < cap
    ensures FirstHit(Take((seen + [node]) + below, cap), hit) == hit(node)
  {
    TakeSeen(seen + [node], below, cap);
    FirstHitSplit(seen + [node], Take(below, cap - |seen| - 1), hit);
  }

  lemma {:induction false} StopsAtHit<T, R>(
    root: T, kids: T -> seq<T>, hit: T -> Option<R>, floor: nat, cap: nat,
    queue: seq<(T, int)>, seen: seq<T>, d: nat, done: seq<T>, rest: seq<T>)
    requires Searching(root, kids, hit, floor, queue, seen, d, done, rest) && rest != []
    requires d < floor && |seen| < cap && hit(rest[0]).Some?
    ensures FirstHit(Examined(root, kids, floor, cap), hit) == hit(rest[0])
  {
    var below := OrderStarts(root, kids, floor, seen, d, done, rest);
    HeadMoves(seen, rest + below);
    FirstOfPrefix(seen, rest[0], (rest + below)[1..], cap, hit);
  }

  lemma {:induction false} StopsAtCap<T, R>(
    root: T, kids: T -> seq<T>, hit: T -> Option<R>, floor: nat, cap: nat,
    queue: seq<(T, int)>, seen: seq<T>, d: nat, done: seq<T>, rest: seq<T>)
    requires Searching(root, kids, hit, floor, queue, seen, d, done, rest) && rest != []
    requires |seen| <= cap && (d == floor || |seen| == cap)
    ensures FirstHit(Examined(root, kids, floor, cap), hit) == None
  {
    if d == floor {
      assert seen == Above(root, kids, d) + [] == Above(root, kids, floor);
    } else {
      var below := OrderStarts(root, kids, floor, seen, d, done, rest);
      TakeSeen(seen, rest + below, cap);
    }
  }

  lemma {:induction false} NothingBelow<T>(root: T, kids: T -> seq<T>, d: nat, e: nat)
    requires d <= e && Level(root, kids, d) == []
    ensures Level(root, kids, e) == [] && Above(root, kids, e) == Above(root, kids, d)
    decreases e
  {
    if d < e {
      NothingBelow(root, kids, d, e - 1);
    }
  }

  lemma {:induction false} StopsWhenEmpty<T, R>(
    root: T, kids: T -> seq<T>, hit: T -> Option<R>, floor: nat, cap: nat,
    seen: seq<T>, d: nat, done: seq<T>, rest: seq<T>)
    requires Searching(root, kids, hit, floor, [], seen, d, done, rest) && |seen| <= cap
    ensures FirstHit(Examined(root, kids, floor, cap), hit) == None
  {
    assert |Tag(rest, d)| == 0 && |Tag(Kids(done, kids), d + 1)| == 0;
    assert done + [] == done == Level(root, kids, d);
    if d < floor {
      NothingBelow(root, kids, d + 1, floor);
    }
    assert Above(root, kids, floor) == seen;
  }

  // ------------------------------------------------------------------
  // Depth
  // ------------------------------------------------------------------

  /** `node` is reached from `root` by stepping to a child `d` times. */
  ghost predicate AtDepth<T>(root: T, kids: T -> seq<T>, node: T, d: nat)
    decreases d
  {
    if d == 0 then node == root else exists child :: child in kids(root) && AtDepth(child, kids, node, d - 1)
  }

  lemma {:induction false} KidsParent<T>(nodes: seq<T>, kids: T -> seq<T>, child: T) returns (parent: T)
    requires child in Kids(nodes, kids)
    ensures parent in nodes && child in kids(parent)
  {
    var n := |nodes| - 1;
    if child in kids(nodes[n]) {
      parent := nodes[n];
    } else {
      parent := KidsParent(nodes[..n], kids, child);
    }
  }

  lemma {:induction false} KidsInclude<T>(nodes: seq<T>, kids: T -> seq<T>, parent: T, child: T)
    requires parent in nodes && child in kids(parent)
    ensures child in Kids(nodes, kids)
  {
    var n := |nodes| - 1;
    if parent != nodes[n] {
      assert nodes == nodes[..n] + [nodes[n]];
      KidsInclude(nodes[..n], kids, parent, child);
    }
  }

  lemma {:induction false} AtDepthSnoc<T>(root: T, kids: T -> seq<T>, parent: T, child: T, d: nat)
    requires AtDepth(root, kids, parent, d) && child in kids(parent)
    ensures AtDepth(root, kids, child, d + 1)
    decreases d
  {
    if d == 0 {
      assert AtDepth(child, kids, child, 0);
    } else {
      var first :| first in kids(root) && AtDepth(first, kids, parent, d - 1);
      AtDepthSnoc(first, kids, parent, child, d - 1);
    }
  }

  lemma {:induction false} AtDepthParent<T>(root: T, kids: T -> seq<T>, child: T, d: nat) returns (parent: T)
    requires AtDepth(root, kids, child, d + 1)
    ensures AtDepth(root, kids, parent, d) && child in kids(parent)
    decreases d
  {
    var first :| first in kids(root) && AtDepth(first, kids, child, d);
    if d == 0 {
      parent := root;
    } else {
      parent := AtDepthParent(first, kids, child, d - 1);
    }
  }

  lemma {:induction false} LevelReaches<T>(root: T, kids: T -> seq<T>, node: T, d: nat)
    requires node in Level(root, kids, d)
    ensures AtDepth(root, kids, node, d)
    decreases d
  {
    if d > 0 {
      var p := KidsParent(Level(root, kids, d - 1), kids, node);
      LevelReaches(root, kids, p, d - 1);
      AtDepthSnoc(root, kids, p, node, d - 1);
    }
  }

  lemma {:induction false} LevelIncludes<T>(root: T, kids: T -> seq<T>, node: T, d: nat)
    requires AtDepth(root, kids, node, d)
    ensures node in Level(root, kids, d)
    decreases d
  {
    if d > 0 {
      var p := AtDepthParent(root, kids, node, d - 1);
      LevelIncludes(root, kids, p, d - 1);
      KidsInclude(Level(root, kids, d - 1), kids, p, node);
    }
  }

  /** The levels the search walks are exactly the nodes at each depth. */
  lemma {:induction false} LevelIsDepth<T>(root: T, kids: T -> seq<T>, node: T, d: nat)
    ensures node in Level(root, kids, d) <==> AtDepth(root, kids, node, d)
  {
    if node in Level(root, kids, d) {
      LevelReaches(root, kids, node, d);
    }
    if AtDepth(root, kids, node, d) {
      LevelIncludes(root, kids, node, d);
    }
  }

  lemma {:induction false} AboveIncludes<T>(root: T, kids: T -> seq<T>, node: T, e: nat, d: nat)
    requires e < d && AtDepth(root, kids, node, e)
    ensures node in Above(root, kids, d)
    decreases d
  {
    if e == d - 1 {
      LevelIncludes(root, kids, node, e);
    } else {
      AboveIncludes(root, kids, node, e, d - 1);
    }
  }

  /** A position in `Above(root, d)` lies in some level, with all the earlier levels before it. */
  lemma {:induction false} PositionLevel<T>(root: T, kids: T -> seq<T>, d: nat, k: nat) returns (e: nat)
    requires k < |Above(root, kids, d)|
    ensures e < d && |Above(root, kids, e)| <= k && AtDepth(root, kids, Above(root, kids, d)[k], e)
    decreases d
  {
    var upper := Above(root, kids, d - 1);
    if k < |upper| {
      e := PositionLevel(root, kids, d - 1, k);
    } else {
      e := d - 1;
      assert Above(root, kids, d)[k] == Level(root, kids, e)[k - |upper|];
      LevelReaches(root, kids, Above(root, kids, d)[k], e);
    }
  }

  lemma {:induction false} EarlierNodes<T>(root: T, kids: T -> seq<T>, e: nat, d: nat, k: nat, node: T)
    requires e <= d && |Above(root, kids, e)| <= k <= |Above(root, kids, d)| && node in Above(root, kids, e)
    ensures node in Above(root, kids, d)[..k]
  {
    var below := AboveSplit(root, kids, e, d);
    var i :| 0 <= i < |Above(root, kids, e)| && Above(root, kids, e)[i] == node;
    assert Above(root, kids, d)[..k][i] == node;
  }

  lemma {:induction false} FirstHitAt<T, R>(nodes: seq<T>, hit: T -> Option<R>) returns (k: nat)
    requires FirstHit(nodes, hit).Some?
    ensures k < |nodes| && hit(nodes[k]) == FirstHit(nodes, hit)
    ensures FirstHit(nodes[..k], hit) == None
  {
    var n := |nodes| - 1;
    if FirstHit(nodes[..n], hit).Some? {
      k := FirstHitAt(nodes[..n], hit);
      assert nodes[..n][..k] == nodes[..k];
    } else {
      k := n;
    }
  }

  lemma {:induction false} FirstHitNone<T, R>(nodes: seq<T>, hit: T -> Option<R>, node: T)
    requires FirstHit(nodes, hit) == None && node in nodes
    ensures hit(node) == None
  {
    var n := |nodes| - 1;
    if node != nodes[n] {
      assert nodes == nodes[..n] + [nodes[n]];
      FirstHitNone(nodes[..n], hit, node);
    }
  }

  /** Nothing is missed: when the nodes above `floor` fit the cap, any hit among them makes the search succeed. */
  lemma {:induction false} NothingMissed<T, R>(
    root: T, kids: T -> seq<T>, hit: T -> Option<R>, floor: nat, cap: nat, node: T, d: nat)
    requires |Above(root, kids, floor)| <= cap
    requires d < floor && AtDepth(root, kids, node, d) && hit(node).Some?
    ensures FirstHit(Examined(root, kids, floor, cap), hit).Some?
  {
    AboveIncludes(root, kids, node, d, floor);
    if FirstHit(Above(root, kids, floor), hit) == None {
      FirstHitNone(Above(root, kids, floor), hit, node);
    }
  }

  ghost predicate HitWithin<T(!new), R>(root: T, kids: T -> seq<T>, hit: T -> Option<R>, floor: nat) {
    exists node: T, d: nat :: d < floor && AtDepth(root, kids, node, d) && hit(node).Some?
  }

  /** When the nodes above `floor` fit the cap, the search succeeds exactly when one of them is a hit. */
  lemma {:induction false} Complete<T(!new), R>(root: T, kids: T -> seq<T>, hit: T -> Option<R>, floor: nat, cap: nat)
    requires |Above(root, kids, floor)| <= cap
    ensures FirstHit(Examined(root, kids, floor, cap), hit).Some? <==> HitWithin(root, kids, hit, floor)
  {
    if FirstHit(Examined(root, kids, floor, cap), hit).Some? {
      var node, d := Shallowest(root, kids, hit, floor, cap);
    }
    if HitWithin(root, kids, hit, floor) {
      var node: T, d: nat :| d < floor && AtDepth(root, kids, node, d) && hit(node).Some?;
      NothingMissed(root, kids, hit, floor, cap, node, d);
    }
  }

  ghost predicate NoHitAbove<T(!new), R>(root: T, kids: T -> seq<T>, hit: T -> Option<R>, d: nat) {
    forall other: T, e: nat :: e < d && AtDepth(root, kids, other, e) ==> hit(other) == None
  }

  /** The first hit is a node of least depth, whether or not the cap bites. */
  lemma {:induction false} Shallowest<T(!new), R>(root: T, kids: T -> seq<T>, hit: T -> Option<R>, floor: nat, cap: nat)
    returns (node: T, d: nat)
    requires FirstHit(Examined(root, kids, floor, cap), hit).Some?
    ensures d < floor && AtDepth(root, kids, node, d)
    ensures hit(node) == FirstHit(Examined(root, kids, floor, cap), hit)
    ensures NoHitAbove(root, kids, hit, d)
  {
    var order := Above(root, kids, floor);
    var nodes := Examined(root, kids, floor, cap);
    var k := FirstHitAt(nodes, hit);
    node := nodes[k];
    assert nodes[..k] == order[..k] && node == order[k];
    d := PositionLevel(root, kids, floor, k);
    forall other: T, e: nat | e < d && AtDepth(root, kids, other, e) ensures hit(other) == None {
      AboveIncludes(root, kids, other, e, d);
      EarlierNodes(root, kids, d, floor, k, other);
      FirstHitNone(order[..k], hit, other);
    }
  }
}
