/** Accessibility snapshots: frame scopes found by indentation, and click handlers merged into the tree. */
module Snapshot {
  import opened Vocab

  datatype Box = Box(x: real, y: real, w: real, h: real)

  datatype Node = Node(
    ref: Option<string>, role: string, name: string, text: string, valuePresent: bool, valueDigest: Option<string>,
    framePath: seq<string>, box: Option<Box>, clickable: bool, depth: nat)

  /** A snapshot line: one that is no node, or a node's attributes with its box relative to its frame. */
  datatype Line =
    | Other
    | NodeLine(depth: nat, role: string, ref: Option<string>, name: string, inline: string, box: Option<Box>,
    pointer: bool)

  /** What is known of an iframe's content: its path, and the border between its box and its content. */
  datatype Frame = Frame(path: seq<string>, borderX: real, borderY: real)

  datatype Scope = Scope(depth: int, path: seq<string>, dx: real, dy: real)

  /** The library's answers: an iframe by its ref, and the salted digest of a value. */
  datatype Library = Library(frame: string -> Frame, digest: string -> string)

  predicate IsValueRole(role: string) {
    role == "textbox" || role == "searchbox" || role == "combobox" || role == "spinbutton" || role == "slider"
  }

  predicate Opens(line: Line) {
    line.NodeLine? && line.role == "iframe" && line.ref.Some?
  }

  predicate AllNodes(lines: seq<Line>) {
    forall i :: 0 <= i < |lines| ==> lines[i].NodeLine?
  }

  function NodeLines(lines: seq<Line>): (kept: seq<Line>)
    ensures AllNodes(kept)
  {
    if lines == [] then []
    else NodeLines(lines[..|lines| - 1]) + if lines[|lines| - 1].NodeLine? then [lines[|lines| - 1]] else []
  }

  // ---- which frame a node is in --------------------------------------------------------------------

  /** Everything after j up to k is indented deeper than j. */
  predicate Deeper(ls: seq<Line>, j: nat, k: nat)
    requires AllNodes(ls) && j < |ls| && k <= |ls|
  {
    forall m :: j < m < k ==> ls[m].depth > ls[j].depth
  }

  /** The iframe on line j has line k inside it. */
  predicate Encloses(ls: seq<Line>, j: nat, k: nat)
    requires AllNodes(ls) && j < k < |ls|
  {
    Opens(ls[j]) && Deeper(ls, j, k) && ls[j].depth < ls[k].depth
  }

  /** The innermost iframe line k is in, among the first i lines. */
  function Innermost(ls: seq<Line>, k: nat, i: nat): (r: Option<nat>)
    requires AllNodes(ls) && i <= k < |ls|
    ensures r.Some? ==> r.value < i && Encloses(ls, r.value, k)
    ensures forall j :: (if r.Some? then r.value else -1) < j < i ==> !Encloses(ls, j, k)
  {
    if i == 0 then None else if Encloses(ls, i - 1, k) then Some(i - 1) else Innermost(ls, k, i - 1)
  }

  const ROOT := Scope(-1, [], 0.0, 0.0)

  function Placed(box: Option<Box>, s: Scope): Option<Box> {
    if box.Some? && box.value.w > 0.0 && box.value.h > 0.0
    then Some(Box(box.value.x + s.dx, box.value.y + s.dy, box.value.w, box.value.h)) else None
  }

  function OpenedBy(line: Line, s: Scope, lib: Library): Scope
    requires Opens(line)
  {
    var f := lib.frame(line.ref.value);
    var box := Placed(line.box, s);
    Scope(line.depth, f.path,
      (if box.Some? then box.value.x else s.dx) + f.borderX, (if box.Some? then box.value.y else s.dy) + f.borderY)
  }

  /** The frame and offset of line k: what its innermost iframe opens, or the page. */
  function ScopeOf(ls: seq<Line>, k: nat, lib: Library): Scope
    requires AllNodes(ls) && k < |ls|
    decreases k, 0
  {
    var j := Innermost(ls, k, k);
    if j.None? then ROOT else Inside(ls, j.value, lib)
  }

  function Inside(ls: seq<Line>, j: nat, lib: Library): Scope
    requires AllNodes(ls) && j < |ls| && Opens(ls[j])
    decreases j, 1
  {
    OpenedBy(ls[j], ScopeOf(ls, j, lib), lib)
  }

  function Truncated(s: string): string {
    if |s| > 80 then s[..80] else s
  }

  /** A node in a scope; a control's value leaves only its presence and its digest. */
  function NodeIn(line: Line, s: Scope, lib: Library): (n: Node)
    requires line.NodeLine?
    ensures IsValueRole(line.role) ==> n.text == []
  {
    var value := IsValueRole(line.role);
    Node(line.ref, line.role, line.name,
      if value then [] else Truncated(line.inline),
      value && line.inline != [],
      if value && line.inline != [] then Some(lib.digest(line.inline)) else None,
      s.path, Placed(line.box, s), line.pointer, line.depth)
  }

  // ---- the stack -----------------------------------------------------------------------------------

  /** The stack after n lines: the page, then the iframes still open, each with what it opens. */
  ghost predicate StackHolds(ls: seq<Line>, n: nat, stack: seq<Scope>, openers: seq<nat>, lib: Library)
    requires AllNodes(ls) && n <= |ls|
  {
    && |stack| == |openers| + 1 && stack[0] == ROOT
    && (forall i :: 0 <= i < |openers| ==>
          openers[i] < n && Opens(ls[openers[i]]) && Deeper(ls, openers[i], n)
          && stack[i + 1] == Inside(ls, openers[i], lib))
    && (forall i, j :: 0 <= i < j < |openers| ==> openers[i] < openers[j])
  }

  /** No open iframe that could hold the next line at the given depth is missing. */
  ghost predicate NoneMissing(ls: seq<Line>, n: nat, openers: seq<nat>, depth: int)
    requires AllNodes(ls) && n <= |ls|
  {
    forall j :: 0 <= j < n && Opens(ls[j]) && Deeper(ls, j, n) && ls[j].depth < depth ==> j in openers
  }

  ghost predicate Complete(ls: seq<Line>, n: nat, openers: seq<nat>)
    requires AllNodes(ls) && n <= |ls|
  {
    forall j :: 0 <= j < n && Opens(ls[j]) && Deeper(ls, j, n) ==> j in openers
  }

  lemma CompleteAtEveryDepth(ls: seq<Line>, n: nat, openers: seq<nat>, depth: int)
    requires AllNodes(ls) && n <= |ls| && Complete(ls, n, openers)
    ensures NoneMissing(ls, n, openers, depth)
  {
    hide Deeper;
  }

  lemma InsideDepth(ls: seq<Line>, j: nat, lib: Library)
    requires AllNodes(ls) && j < |ls| && Opens(ls[j])
    ensures Inside(ls, j, lib).depth == ls[j].depth
  {
  }

  lemma StackShape(ls: seq<Line>, n: nat, stack: seq<Scope>, openers: seq<nat>, lib: Library)
    requires AllNodes(ls) && n <= |ls| && StackHolds(ls, n, stack, openers, lib)
    ensures |stack| == |openers| + 1 && stack[0].depth == -1
  {
  }

  lemma PopsDeep(ls: seq<Line>, n: nat, stack: seq<Scope>, openers: seq<nat>, lib: Library, depth: nat)
    requires AllNodes(ls) && n <= |ls| && StackHolds(ls, n, stack, openers, lib)
    requires NoneMissing(ls, n, openers, depth) && |openers| > 0 && stack[|stack| - 1].depth >= depth
    ensures StackHolds(ls, n, stack[..|stack| - 1], openers[..|openers| - 1], lib)
    ensures NoneMissing(ls, n, openers[..|openers| - 1], depth)
  {
    hide Inside, Deeper;
    var top := |openers| - 1;
    InsideDepth(ls, openers[top], lib);
    forall j | 0 <= j < n && Opens(ls[j]) && Deeper(ls, j, n) && ls[j].depth < depth ensures j in openers[..top] {
      assert j != openers[top];
    }
  }

  /** Once the deeper scopes are popped, the top is the innermost iframe's. */
  lemma TopIsScope(ls: seq<Line>, n: nat, stack: seq<Scope>, openers: seq<nat>, lib: Library)
    requires AllNodes(ls) && n < |ls| && StackHolds(ls, n, stack, openers, lib)
    requires NoneMissing(ls, n, openers, ls[n].depth) && stack[|stack| - 1].depth < ls[n].depth
    ensures stack[|stack| - 1] == ScopeOf(ls, n, lib)
  {
    hide Inside, Deeper;
    var inner := Innermost(ls, n, n);
    if inner.Some? {
      assert inner.value in openers;
      var i :| 0 <= i < |openers| && openers[i] == inner.value;
      var top := openers[|openers| - 1];
      InsideDepth(ls, top, lib);
      assert Encloses(ls, top, n);
    } else if openers != [] {
      InsideDepth(ls, openers[|openers| - 1], lib);
      NotEnclosed(ls, openers[|openers| - 1], n);
    }
  }

  lemma NotEnclosed(ls: seq<Line>, j: nat, n: nat)
    requires AllNodes(ls) && j < n < |ls| && Innermost(ls, n, n).None?
    ensures !Encloses(ls, j, n)
  {
  }

  /** A line shallower than none of the open iframes keeps them open. */
  lemma StaysDeeper(ls: seq<Line>, n: nat, stack: seq<Scope>, openers: seq<nat>, lib: Library, i: nat)
    requires AllNodes(ls) && n < |ls| && StackHolds(ls, n, stack, openers, lib) && i < |openers|
    requires stack[|stack| - 1].depth < ls[n].depth
    ensures Deeper(ls, openers[i], n + 1)
  {
    hide Inside;
    var top := openers[|openers| - 1];
    InsideDepth(ls, top, lib);
    if i < |openers| - 1 {
      assert ls[top].depth > ls[openers[i]].depth;
    }
  }

  lemma NextLine(ls: seq<Line>, n: nat, stack: seq<Scope>, openers: seq<nat>, lib: Library)
    requires AllNodes(ls) && n < |ls| && StackHolds(ls, n, stack, openers, lib)
    requires NoneMissing(ls, n, openers, ls[n].depth) && stack[|stack| - 1].depth < ls[n].depth
    ensures !Opens(ls[n]) ==> StackHolds(ls, n + 1, stack, openers, lib) && Complete(ls, n + 1, openers)
    ensures Opens(ls[n]) ==>
      StackHolds(ls, n + 1, stack + [Inside(ls, n, lib)], openers + [n], lib) && Complete(ls, n + 1, openers + [n])
  {
    hide Inside, Deeper;
    forall i | 0 <= i < |openers| ensures Deeper(ls, openers[i], n + 1) {
      StaysDeeper(ls, n, stack, openers, lib, i);
    }
    assert Deeper(ls, n, n + 1) by { JustOpened(ls, n); }
    forall j | 0 <= j < n && Opens(ls[j]) && Deeper(ls, j, n + 1) ensures j in openers {
      DeeperBefore(ls, j, n);
    }
  }

  lemma JustOpened(ls: seq<Line>, n: nat)
    requires AllNodes(ls) && n < |ls|
    ensures Deeper(ls, n, n + 1)
  {
  }

  lemma DeeperBefore(ls: seq<Line>, j: nat, n: nat)
    requires AllNodes(ls) && j < n < |ls| && Deeper(ls, j, n + 1)
    ensures Deeper(ls, j, n) && ls[n].depth > ls[j].depth
  {
  }

  ghost predicate ParsedTo(all: seq<Line>, nodes: seq<Node>, lib: Library)
    requires AllNodes(all)
  {
    |nodes| <= |all| && forall k :: 0 <= k < |nodes| ==> nodes[k] == NodeIn(all[k], ScopeOf(all, k, lib), lib)
  }

  /** Every node gets the frame and offset of its innermost enclosing iframe by indentation. */
  method ParseSnapshot(lines: seq<Line>, lib: Library) returns (nodes: seq<Node>)
    ensures var ls := NodeLines(lines);
      && |nodes| == |ls|
      && forall k :: 0 <= k < |ls| ==> nodes[k] == NodeIn(ls[k], ScopeOf(ls, k, lib), lib)
  {
    hide Innermost, ScopeOf, Inside, OpenedBy, NodeIn, StackHolds, NoneMissing, Complete, AllNodes, NodeLines;
    nodes := [];
    var stack := [ROOT];
    ghost var openers: seq<nat> := [];
    ghost var all := NodeLines(lines);
    StackStarts(all, lib);
    NodeLinesStart(lines);
    for i := 0 to |lines|
      invariant ParsedTo(all, nodes, lib) && all[..|nodes|] == NodeLines(lines[..i])
      invariant StackHolds(all, |nodes|, stack, openers, lib) && Complete(all, |nodes|, openers)
    {
      NodeLinesGrow(lines, i);
      StackShape(all, |nodes|, stack, openers, lib);
      if lines[i].Other? {
        continue;
      }
      var line := lines[i];
      ghost var n := |nodes|;
      assert all[n] == line;
      CompleteAtEveryDepth(all, n, openers, line.depth);
      while stack[|stack| - 1].depth >= line.depth
        invariant |stack| == |openers| + 1 && stack[0].depth == -1
        invariant StackHolds(all, n, stack, openers, lib) && NoneMissing(all, n, openers, line.depth)
        decreases |stack|
      {
        PopsDeep(all, n, stack, openers, lib, line.depth);
        openers := openers[..|openers| - 1];
        stack := stack[..|stack| - 1];
      }
      var scope := stack[|stack| - 1];
      TopIsScope(all, n, stack, openers, lib);
      NextLine(all, n, stack, openers, lib);
      nodes := nodes + [NodeIn(line, scope, lib)];
      if Opens(line) {
        InsideUnfolds(all, n, lib);
        stack := stack + [OpenedBy(line, scope, lib)];
        openers := openers + [n];
      }
    }
    assert lines[..|lines|] == lines;
  }

  lemma StackStarts(ls: seq<Line>, lib: Library)
    requires AllNodes(ls)
    ensures StackHolds(ls, 0, [ROOT], [], lib) && Complete(ls, 0, [])
  {
  }

  lemma NodeLinesStart(lines: seq<Line>)
    ensures NodeLines(lines[..0]) == []
  {
  }

  lemma InsideUnfolds(ls: seq<Line>, j: nat, lib: Library)
    requires AllNodes(ls) && j < |ls| && Opens(ls[j])
    ensures Inside(ls, j, lib) == OpenedBy(ls[j], ScopeOf(ls, j, lib), lib)
  {
  }

  lemma {:induction false} NodeLinesPrefix(lines: seq<Line>, i: nat)
    requires i <= |lines|
    ensures NodeLines(lines[..i]) <= NodeLines(lines)
  {
    if i < |lines| {
      NodeLinesPrefix(lines[..|lines| - 1], i);
      assert lines[..|lines| - 1][..i] == lines[..i];
    } else {
      assert lines[..i] == lines;
    }
  }

  /** The next line, if it is a node, is the next of the node lines. */
  lemma NodeLinesGrow(lines: seq<Line>, i: nat)
    requires i < |lines|
    ensures var seen, all := NodeLines(lines[..i]), NodeLines(lines);
      && NodeLines(lines[..i + 1]) == (if lines[i].NodeLine? then seen + [lines[i]] else seen)
      && NodeLines(lines[..i + 1]) <= all
      && (lines[i].NodeLine? ==> |seen| < |all| && all[|seen|] == lines[i])
  {
    assert lines[..i + 1][..i] == lines[..i];
    NodeLinesPrefix(lines, i + 1);
  }
}
