/** Click handlers the accessibility tree misses, merged into its nodes without losing any. */
module ClickTargets {
  import opened Vocab
  import opened Snapshot

  datatype ClickTarget = ClickTarget(ref: string, framePath: seq<string>, box: Box, text: string)

  /** A merge's input; fold is how labels are compared. */
  datatype Scene = Scene(nodes: seq<Node>, targets: seq<ClickTarget>, fold: string -> string)

  function Area(b: Box): real {
    b.w * b.h
  }

  predicate Covers(b: Box, px: real, py: real) {
    b.x <= px <= b.x + b.w && b.y <= py <= b.y + b.h
  }

  /** The node could own the handler: an addressable node of the same frame over its center. */
  predicate Holds(n: Node, t: ClickTarget) {
    && n.ref.Some? && n.box.Some? && n.framePath == t.framePath
    && Covers(n.box.value, t.box.x + t.box.w / 2.0, t.box.y + t.box.h / 2.0)
  }

  /** The smaller box comes first, then the deeper node, then the earlier one. */
  predicate Precedes(a: Node, i: nat, b: Node, j: nat)
    requires a.box.Some? && b.box.Some?
  {
    var x, y := Area(a.box.value), Area(b.box.value);
    x < y || (x == y && (a.depth > b.depth || (a.depth == b.depth && i < j)))
  }

  /** The handler's owner: of the nodes that hold its center, the first in that order. */
  ghost predicate Owns(nodes: seq<Node>, t: ClickTarget, i: nat) {
    && i < |nodes| && Holds(nodes[i], t)
    && forall j :: 0 <= j < |nodes| && j != i && Holds(nodes[j], t) ==> Precedes(nodes[i], i, nodes[j], j)
  }

  function Owner(nodes: seq<Node>, t: ClickTarget): (owner: Option<nat>)
    ensures owner.Some? ==> Owns(nodes, t, owner.value)
    ensures owner.None? ==> forall j :: 0 <= j < |nodes| ==> !Holds(nodes[j], t)
  {
    if nodes == [] then None
    else
      var n := |nodes| - 1;
      var before := Owner(nodes[..n], t);
      if !Holds(nodes[n], t) then before
      else if before.None? || Precedes(nodes[n], n, nodes[before.value], before.value) then Some(n)
      else before
  }

  function Label(n: Node): string {
    if n.name != [] then n.name else n.text
  }

  /** The handler is its owner's own: it has no text, or the owner's label says the same. */
  predicate Flags(s: Scene, t: nat)
    requires t < |s.targets|
  {
    var owner := Owner(s.nodes, s.targets[t]);
    owner.Some? && (s.targets[t].text == [] || s.fold(s.targets[t].text) == s.fold(Label(s.nodes[owner.value])))
  }

  /** The node a handler that flags none is placed after: its owner, or the last; -1 if there is none. */
  function PlacedAfter(s: Scene, t: nat): (i: int)
    requires t < |s.targets|
    ensures -1 <= i < |s.nodes| && (s.nodes != [] ==> i >= 0)
  {
    var owner := Owner(s.nodes, s.targets[t]);
    if owner.Some? then owner.value else |s.nodes| - 1
  }

  function Added(s: Scene, t: nat): Node
    requires t < |s.targets|
  {
    var target := s.targets[t];
    var owner := Owner(s.nodes, target);
    Node(Some(target.ref), "clickable", Truncated(target.text), [], false, None,
         target.framePath, Some(target.box), true,
      if owner.Some? then s.nodes[owner.value].depth + 1 else 0)
  }

  ghost predicate Flagged(s: Scene, i: nat) {
    exists t :: 0 <= t < |s.targets| && Flags(s, t) && Owner(s.nodes, s.targets[t]) == Some(i)
  }

  // ---- where every node of the result comes from ---------------------------------------------------

  datatype Origin = Tree(node: nat) | Handler(target: nat)

  /** The handlers among the first n that are placed after node i, in order. */
  ghost function After(s: Scene, i: int, n: nat): seq<Origin>
    requires n <= |s.targets|
  {
    if n == 0 then []
    else After(s, i, n - 1) + if !Flags(s, n - 1) && PlacedAfter(s, n - 1) == i then [Handler(n - 1)] else []
  }

  lemma {:induction false} AfterIsHandlers(s: Scene, i: int, n: nat)
    requires n <= |s.targets|
    ensures forall o :: o in After(s, i, n) ==> o.Handler? && o.target < n && PlacedAfter(s, o.target) == i
  {
    hide Flags, PlacedAfter;
    if n > 0 { AfterIsHandlers(s, i, n - 1); }
  }

  ghost function Blocks(s: Scene, m: nat): seq<Origin>
    requires m <= |s.nodes|
  {
    if m == 0 then [] else Blocks(s, m - 1) + [Tree(m - 1)] + After(s, m - 1, |s.targets|)
  }

  /** The origins of the merged nodes, in order. */
  ghost function Origins(s: Scene): seq<Origin> {
    After(s, -1, |s.targets|) + Blocks(s, |s.nodes|)
  }

  ghost predicate From(s: Scene, n: Node, o: Origin) {
    match o
    case Tree(i) => i < |s.nodes| && n == if Flagged(s, i) then s.nodes[i].(clickable := true) else s.nodes[i]
    case Handler(t) => t < |s.targets| && n == Added(s, t)
  }

  ghost predicate AllFrom(s: Scene, ns: seq<Node>, os: seq<Origin>) {
    |ns| == |os| && forall k :: 0 <= k < |ns| ==> From(s, ns[k], os[k])
  }

  lemma AllFromAppends(s: Scene, a: seq<Node>, x: seq<Origin>, b: seq<Node>, y: seq<Origin>)
    requires AllFrom(s, a, x) && AllFrom(s, b, y)
    ensures AllFrom(s, a + b, x + y)
  {
    hide From;
  }

  function ExtraAt(extra: map<int, seq<Node>>, i: int): seq<Node> {
    if i in extra then extra[i] else []
  }

  /** For every position, extra holds the nodes of the first n handlers placed there. */
  ghost predicate Collected(s: Scene, extra: map<int, seq<Node>>, n: nat)
    requires n <= |s.targets|
  {
    forall i :: AllFrom(s, ExtraAt(extra, i), After(s, i, n))
  }

  lemma CollectedNext(s: Scene, extra: map<int, seq<Node>>, n: nat)
    requires n < |s.targets| && Collected(s, extra, n)
    ensures Flags(s, n) ==> Collected(s, extra, n + 1)
    ensures !Flags(s, n) ==>
      var i := PlacedAfter(s, n); Collected(s, extra[i := ExtraAt(extra, i) + [Added(s, n)]], n + 1)
  {
    hide Flags, PlacedAfter, Added, AllFrom, ExtraAt;
    var i := PlacedAfter(s, n);
    var next := if Flags(s, n) then extra else extra[i := ExtraAt(extra, i) + [Added(s, n)]];
    forall j ensures AllFrom(s, ExtraAt(next, j), After(s, j, n + 1)) {
      AfterNext(s, j, n);
      assert After(s, j, n) + [] == After(s, j, n);
      OneAdded(s, n);
      AllFromAppends(s, ExtraAt(extra, j), After(s, j, n), [Added(s, n)], [Handler(n)]);
      ExtraUpdated(extra, i, ExtraAt(extra, i) + [Added(s, n)], j);
    }
  }

  lemma ExtraUpdated(extra: map<int, seq<Node>>, i: int, now: seq<Node>, j: int)
    ensures ExtraAt(extra[i := now], j) == if j == i then now else ExtraAt(extra, j)
  {
  }

  lemma AfterNext(s: Scene, i: int, n: nat)
    requires n < |s.targets|
    ensures After(s, i, n + 1) == After(s, i, n) + if !Flags(s, n) && PlacedAfter(s, n) == i then [Handler(n)] else []
  {
    hide Flags, PlacedAfter;
  }

  lemma BlocksNext(s: Scene, m: nat)
    requires m < |s.nodes|
    ensures Blocks(s, m + 1) == Blocks(s, m) + [Tree(m)] + After(s, m, |s.targets|)
  {
    hide After;
  }

  lemma NothingYet(s: Scene)
    ensures Collected(s, map[], 0)
    ensures After(s, -1, |s.targets|) + Blocks(s, 0) == After(s, -1, |s.targets|)
  {
  }

  lemma NodePlaced(s: Scene, merged: seq<Node>, i: nat, node: Node, more: seq<Node>)
    requires i < |s.nodes| && AllFrom(s, merged, After(s, -1, |s.targets|) + Blocks(s, i))
    requires From(s, node, Tree(i)) && AllFrom(s, more, After(s, i, |s.targets|))
    ensures AllFrom(s, merged + [node] + more, After(s, -1, |s.targets|) + Blocks(s, i + 1))
  {
    hide From, After, Blocks;
    var first, before, after := After(s, -1, |s.targets|), Blocks(s, i), After(s, i, |s.targets|);
    AllFromAppends(s, merged, first + before, [node], [Tree(i)]);
    AllFromAppends(s, merged + [node], first + before + [Tree(i)], more, after);
    BlocksNext(s, i);
    assert first + before + [Tree(i)] + after == first + (before + [Tree(i)] + after);
  }

  /** Every node of the result comes from the tree, flagged as its handlers say, or is one handler's own. */
  method MergeClickTargets(s: Scene) returns (merged: seq<Node>)
    ensures AllFrom(s, merged, Origins(s))
  {
    hide Owner, Flags, PlacedAfter, Added, AllFrom, Collected, After, Blocks, ExtraAt;
    var flagged: set<nat> := {};
    var extra: map<int, seq<Node>> := map[];
    NothingYet(s);
    for t := 0 to |s.targets|
      invariant forall i :: i in flagged <==>
        exists u :: 0 <= u < t && Flags(s, u) && Owner(s.nodes, s.targets[u]) == Some(i)
      invariant Collected(s, extra, t)
    {
      var owner := FindOwner(s.nodes, s.targets[t]);
      CollectedNext(s, extra, t);
      if Flags(s, t) {
        FlagsHasOwner(s, t);
        flagged := flagged + {owner.value};
      } else {
        var i := PlacedAfter(s, t);
        extra := extra[i := ExtraAt(extra, i) + [Added(s, t)]];
      }
    }
    merged := ExtraAt(extra, -1);
    CollectedAt(s, extra, -1);
    for i := 0 to |s.nodes|
      invariant AllFrom(s, merged, After(s, -1, |s.targets|) + Blocks(s, i))
    {
      var node := s.nodes[i];
      if i in flagged {
        node := node.(clickable := true);
      }
      CollectedAt(s, extra, i);
      NodePlaced(s, merged, i, node, ExtraAt(extra, i));
      merged := merged + [node] + ExtraAt(extra, i);
    }
  }

  lemma CollectedAt(s: Scene, extra: map<int, seq<Node>>, i: int)
    requires Collected(s, extra, |s.targets|)
    ensures AllFrom(s, ExtraAt(extra, i), After(s, i, |s.targets|))
  {
    hide AllFrom;
  }

  lemma FlagsHasOwner(s: Scene, t: nat)
    requires t < |s.targets| && Flags(s, t)
    ensures Owner(s.nodes, s.targets[t]).Some?
  {
  }

  lemma OneAdded(s: Scene, t: nat)
    requires t < |s.targets|
    ensures AllFrom(s, [Added(s, t)], [Handler(t)])
  {
  }

  method FindOwner(nodes: seq<Node>, t: ClickTarget) returns (owner: Option<nat>)
    ensures owner == Owner(nodes, t)
  {
    hide Covers, Area;
    owner := None;
    for n := 0 to |nodes|
      invariant owner == Owner(nodes[..n], t)
    {
      assert nodes[..n + 1][..n] == nodes[..n];
      if Holds(nodes[n], t) {
        if owner.None? || Precedes(nodes[n], n, nodes[owner.value], owner.value) {
          owner := Some(n);
        }
      }
    }
    assert nodes[..|nodes|] == nodes;
  }

  // ---- nothing is lost, nothing is doubled ---------------------------------------------------------

  /** The tree nodes among the origins, in order. */
  ghost function Kept(os: seq<Origin>): seq<nat> {
    if os == [] then []
    else Kept(os[..|os| - 1]) + if os[|os| - 1].Tree? then [os[|os| - 1].node] else []
  }

  lemma {:induction false} KeptSplits(a: seq<Origin>, b: seq<Origin>)
    ensures Kept(a + b) == Kept(a) + Kept(b)
  {
    if b == [] {
      assert a + b == a;
    } else {
      KeptSplits(a, b[..|b| - 1]);
      assert (a + b)[..|a + b| - 1] == a + b[..|b| - 1];
    }
  }

  lemma {:induction false} HandlersKeepNone(os: seq<Origin>)
    requires forall k :: 0 <= k < |os| ==> os[k].Handler?
    ensures Kept(os) == []
  {
    if os != [] { HandlersKeepNone(os[..|os| - 1]); }
  }

  lemma KeepsOne(i: nat)
    ensures Kept([Tree(i)]) == [i]
  {
    assert [Tree(i)][..0] == [];
  }

  function Upto(n: nat): seq<nat> {
    seq(n, i => i)
  }

  lemma {:induction false} BlocksKeepAll(s: Scene, m: nat)
    requires m <= |s.nodes|
    ensures Kept(Blocks(s, m)) == Upto(m)
  {
    hide After, Kept;
    if m > 0 {
      BlocksNext(s, m - 1);
      BlocksKeepAll(s, m - 1);
      var after := After(s, m - 1, |s.targets|);
      KeptSplits(Blocks(s, m - 1) + [Tree(m - 1)], after);
      KeptSplits(Blocks(s, m - 1), [Tree(m - 1)]);
      AfterIsHandlers(s, m - 1, |s.targets|);
      HandlersKeepNone(after);
      KeepsOne(m - 1);
      assert Upto(m) == Upto(m - 1) + [m - 1];
    } else {
      HandlersKeepNone(Blocks(s, 0));
    }
  }

  lemma CountAppends(a: seq<Origin>, b: seq<Origin>, o: Origin)
    ensures multiset(a + b)[o] == multiset(a)[o] + multiset(b)[o]
  {
  }

  lemma CountOne(o: Origin, p: Origin)
    ensures multiset([o])[p] == if o == p then 1 else 0
  {
  }

  lemma AfterNone(s: Scene, i: int)
    ensures After(s, i, 0) == []
  {
  }

  lemma BlocksNone(s: Scene)
    ensures Blocks(s, 0) == []
  {
  }

  lemma {:induction false} AfterHoldsOnce(s: Scene, i: int, n: nat, t: nat)
    requires n <= |s.targets| && t < |s.targets|
    ensures multiset(After(s, i, n))[Handler(t)] == if t < n && !Flags(s, t) && PlacedAfter(s, t) == i then 1 else 0
  {
    hide Flags, PlacedAfter, After;
    if n == 0 {
      AfterNone(s, i);
    } else {
      AfterHoldsOnce(s, i, n - 1, t);
      AfterNext(s, i, n - 1);
      if !Flags(s, n - 1) && PlacedAfter(s, n - 1) == i {
        CountAppends(After(s, i, n - 1), [Handler(n - 1)], Handler(t));
        CountOne(Handler(n - 1), Handler(t));
      } else {
        assert After(s, i, n - 1) + [] == After(s, i, n - 1);
      }
    }
  }

  lemma {:induction false} BlocksHoldOnce(s: Scene, m: nat, t: nat)
    requires m <= |s.nodes| && t < |s.targets|
    ensures multiset(Blocks(s, m))[Handler(t)] == if !Flags(s, t) && 0 <= PlacedAfter(s, t) < m then 1 else 0
  {
    hide Flags, PlacedAfter, After, Blocks;
    if m == 0 {
      BlocksNone(s);
    } else {
      BlocksHoldOnce(s, m - 1, t);
      AfterHoldsOnce(s, m - 1, |s.targets|, t);
      BlocksNext(s, m - 1);
      CountAppends(Blocks(s, m - 1) + [Tree(m - 1)], After(s, m - 1, |s.targets|), Handler(t));
      CountAppends(Blocks(s, m - 1), [Tree(m - 1)], Handler(t));
    }
  }

  lemma HeldOnce(s: Scene, t: nat)
    requires t < |s.targets|
    ensures multiset(Origins(s))[Handler(t)] == if Flags(s, t) then 0 else 1
    ensures Flags(s, t) ==> Handler(t) !in Origins(s)
  {
    hide Flags, PlacedAfter, After, Blocks;
    AfterHoldsOnce(s, -1, |s.targets|, t);
    BlocksHoldOnce(s, |s.nodes|, t);
    CountAppends(After(s, -1, |s.targets|), Blocks(s, |s.nodes|), Handler(t));
    assert Handler(t) in Origins(s) <==> multiset(Origins(s))[Handler(t)] > 0;
  }

  /**
   * The merge keeps every tree node once and in order, and every handler either flags exactly its
   * owner or adds exactly one node.
   */
  lemma NothingLost(s: Scene)
    ensures Kept(Origins(s)) == Upto(|s.nodes|)
    ensures forall t :: 0 <= t < |s.targets| ==>
      if Flags(s, t) then
        Handler(t) !in Origins(s) && Owner(s.nodes, s.targets[t]).Some?
        && Flagged(s, Owner(s.nodes, s.targets[t]).value)
      else multiset(Origins(s))[Handler(t)] == 1
  {
    hide Owner, PlacedAfter, Flagged, After, Blocks, Kept, Flags;
    var first := After(s, -1, |s.targets|);
    BlocksKeepAll(s, |s.nodes|);
    KeptSplits(first, Blocks(s, |s.nodes|));
    AfterIsHandlers(s, -1, |s.targets|);
    HandlersKeepNone(first);
    forall t | 0 <= t < |s.targets|
      ensures if Flags(s, t) then
        Handler(t) !in Origins(s) && Owner(s.nodes, s.targets[t]).Some?
        && Flagged(s, Owner(s.nodes, s.targets[t]).value)
      else multiset(Origins(s))[Handler(t)] == 1
    {
      HeldOnce(s, t);
      if Flags(s, t) {
        FlagsHasOwner(s, t);
        IsFlagged(s, t);
      }
    }
  }

  lemma IsFlagged(s: Scene, t: nat)
    requires t < |s.targets| && Flags(s, t) && Owner(s.nodes, s.targets[t]).Some?
    ensures Flagged(s, Owner(s.nodes, s.targets[t]).value)
  {
  }

  /** A node is marked clickable only because a handler flags it. */
  lemma MarkedForAReason(s: Scene, merged: seq<Node>, k: nat)
    requires AllFrom(s, merged, Origins(s)) && k < |merged| && Origins(s)[k].Tree?
    ensures var i := Origins(s)[k].node;
      && i < |s.nodes| && merged[k].(clickable := s.nodes[i].clickable) == s.nodes[i]
      && (merged[k].clickable <==> s.nodes[i].clickable || Flagged(s, i))
  {
    hide Flagged, Origins;
    assert From(s, merged[k], Origins(s)[k]);
  }

  /** The tree node before position k, if any. */
  ghost predicate DirectlyAfter(os: seq<Origin>, k: nat, i: int) {
    k < |os| &&
    if i < 0 then forall m :: 0 <= m < k ==> os[m].Handler?
    else exists m :: 0 <= m < k && os[m] == Tree(i) && forall x :: m < x < k ==> os[x].Handler?
  }

  lemma {:induction false} BlocksPlace(s: Scene, m: nat, k: nat)
    requires m <= |s.nodes| && k < |Blocks(s, m)| && Blocks(s, m)[k].Handler?
    ensures Blocks(s, m)[k].target < |s.targets|
    ensures PlacedAfter(s, Blocks(s, m)[k].target) >= 0
    ensures DirectlyAfter(Blocks(s, m), k, PlacedAfter(s, Blocks(s, m)[k].target))
  {
    hide Flags, PlacedAfter;
    var front := Blocks(s, m - 1);
    if k < |front| {
      BlocksPlace(s, m - 1, k);
      var i := PlacedAfter(s, front[k].target);
      var j :| 0 <= j < k && front[j] == Tree(i) && forall x :: j < x < k ==> front[x].Handler?;
      assert Blocks(s, m)[j] == Tree(i);
    } else {
      AfterIsHandlers(s, m - 1, |s.targets|);
      assert Blocks(s, m)[|front|] == Tree(m - 1);
      assert forall x :: |front| < x < |Blocks(s, m)| ==> Blocks(s, m)[x] in After(s, m - 1, |s.targets|);
    }
  }

  /** An added node stands after its owner, with nothing but other added nodes between. */
  lemma AddedFollowsOwner(s: Scene, k: nat)
    requires k < |Origins(s)| && Origins(s)[k].Handler?
    ensures Origins(s)[k].target < |s.targets|
    ensures DirectlyAfter(Origins(s), k, PlacedAfter(s, Origins(s)[k].target))
  {
    hide Flags, PlacedAfter, Blocks;
    var first, rest := After(s, -1, |s.targets|), Blocks(s, |s.nodes|);
    AfterIsHandlers(s, -1, |s.targets|);
    if k >= |first| {
      BlocksPlace(s, |s.nodes|, k - |first|);
      var i := PlacedAfter(s, rest[k - |first|].target);
      var j :| 0 <= j < k - |first| && rest[j] == Tree(i) && forall x :: j < x < k - |first| ==> rest[x].Handler?;
      assert Origins(s)[j + |first|] == Tree(i);
    }
  }
}
