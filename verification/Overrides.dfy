/** Tenant overrides: deep-merged patches, the paths they may never set, and what merging keeps. */
module Overrides {
  import opened Vocab
  import opened Json

  type Fields = map<string, Json>

  // ---- merging -------------------------------------------------------------------------------------

  /** Objects merge key by key; anything else in the patch replaces what was there. */
  function Merge(base: Fields, patch: Fields): (merged: Fields)
    ensures merged.Keys == base.Keys + patch.Keys
    decreases Object(patch), 1
  {
    map k | k in base.Keys + patch.Keys :: MergedAt(base, patch, k)
  }

  function MergedAt(base: Fields, patch: Fields, k: string): Json
    requires k in base || k in patch
    decreases Object(patch), 0
  {
    if k !in patch then base[k]
    else if patch[k].Object? && k in base && base[k].Object? then Object(Merge(base[k].fields, patch[k].fields))
    else patch[k]
  }

  /** The keys still left hold what the base holds; every other key is merged. */
  ghost predicate PartlyMerged(base: Fields, patch: Fields, left: set<string>, merged: Fields) {
    && left <= patch.Keys
    && merged.Keys == base.Keys + (patch.Keys - left)
    && (forall k :: k in merged ==> merged[k] == if k in left then base[k] else MergedAt(base, patch, k))
  }

  lemma MergeStarts(base: Fields, patch: Fields)
    ensures PartlyMerged(base, patch, patch.Keys, base)
  {
  }

  lemma MergeSteps(base: Fields, patch: Fields, left: set<string>, merged: Fields, key: string)
    requires PartlyMerged(base, patch, left, merged) && key in left
    ensures PartlyMerged(base, patch, left - {key}, merged[key := MergedAt(base, patch, key)])
  {
    hide MergedAt;
  }

  lemma MergeEnds(base: Fields, patch: Fields, merged: Fields)
    requires PartlyMerged(base, patch, {}, merged)
    ensures merged == Merge(base, patch)
  {
  }

  lemma MergeNext(base: Fields, patch: Fields, left: set<string>, merged: Fields, key: string)
    requires PartlyMerged(base, patch, left, merged) && key in left
    ensures key in patch && (key in merged <==> key in base) && (key in base ==> merged[key] == base[key])
    ensures MergedAt(base, patch, key) ==
      if patch[key].Object? && key in base && base[key].Object? then Object(Merge(base[key].fields, patch[key].fields))
      else patch[key]
  {
  }

  method DeepMerge(base: Fields, patch: Fields) returns (merged: Fields)
    ensures merged == Merge(base, patch)
    decreases Object(patch)
  {
    hide Merge, MergedAt, PartlyMerged;
    merged := base;
    var left := patch.Keys;
    MergeStarts(base, patch);
    while left != {}
      invariant PartlyMerged(base, patch, left, merged)
      decreases |left|
    {
      var key :| key in left;
      MergeNext(base, patch, left, merged, key);
      MergeSteps(base, patch, left, merged, key);
      left := left - {key};
      var value := patch[key];
      if value.Object? && key in merged && merged[key].Object? {
        var inner := DeepMerge(merged[key].fields, value.fields);
        merged := merged[key := Object(inner)];
      } else {
        merged := merged[key := value];
      }
    }
    MergeEnds(base, patch, merged);
  }

  lemma {:induction false} MergeSelf(patch: Fields)
    ensures Merge(patch, patch) == patch
    decreases Object(patch)
  {
    forall k | k in patch ensures Merge(patch, patch)[k] == patch[k] {
      if patch[k].Object? { MergeSelf(patch[k].fields); }
    }
  }

  /** Applying a patch a second time changes nothing. */
  lemma {:induction false} MergeIdempotent(base: Fields, patch: Fields)
    ensures Merge(Merge(base, patch), patch) == Merge(base, patch)
    decreases Object(patch)
  {
    var once := Merge(base, patch);
    forall k | k in once ensures MergedAt(once, patch, k) == once[k] {
      assert once[k] == MergedAt(base, patch, k);
      if k in patch && patch[k].Object? {
        if k in base && base[k].Object? {
          MergeIdempotent(base[k].fields, patch[k].fields);
        } else {
          MergeSelf(patch[k].fields);
        }
      }
    }
    assert Merge(once, patch).Keys == once.Keys;
  }

  // ---- paths ---------------------------------------------------------------------------------------

  type Path = seq<string>

  function Dotted(path: Path): string {
    if path == [] then [] else if |path| == 1 then path[0] else path[0] + ['.'] + Dotted(path[1..])
  }

  /** The patch sets the key at this path, or an object on the way down to one it sets. */
  predicate Sets(patch: Fields, path: Path)
    decreases |path|
  {
    && path != [] && path[0] in patch
    && (|path| > 1 ==> patch[path[0]].Object? && Sets(patch[path[0]].fields, path[1..]))
  }

  function Lookup(fields: Fields, path: Path): Option<Json>
    decreases |path|
  {
    if path == [] || path[0] !in fields then None
    else if |path| == 1 then Some(fields[path[0]])
    else if fields[path[0]].Object? then Lookup(fields[path[0]].fields, path[1..])
    else None
  }

  /** On the way to the path, the patch puts something that is not an object. */
  predicate Cuts(patch: Fields, path: Path)
    decreases |path|
  {
    && |path| > 1 && path[0] in patch
    && (!patch[path[0]].Object? || Cuts(patch[path[0]].fields, path[1..]))
  }

  /**
   * A patch that does not set a path leaves the value there alone exactly when nothing was there or
   * the patch puts no scalar or list in place of an object on the way.
   */
  lemma {:induction false} UnsetPathSurvives(base: Fields, patch: Fields, path: Path)
    requires !Sets(patch, path)
    ensures Lookup(Merge(base, patch), path) == Lookup(base, path) <==>
      Lookup(base, path).None? || !Cuts(patch, path)
    decreases |path|
  {
    if path != [] && path[0] in patch && |path| > 1 && patch[path[0]].Object? {
      var inner := patch[path[0]].fields;
      if path[0] in base && base[path[0]].Object? {
        UnsetPathSurvives(base[path[0]].fields, inner, path[1..]);
      } else {
        NothingAtUnset(inner, path[1..]);
      }
    }
  }

  lemma {:induction false} NothingAtUnset(patch: Fields, path: Path)
    requires !Sets(patch, path)
    ensures Lookup(patch, path) == None
    decreases |path|
  {
    if path != [] && path[0] in patch && |path| > 1 && patch[path[0]].Object? {
      NothingAtUnset(patch[path[0]].fields, path[1..]);
    }
  }

  // ---- the locked paths ----------------------------------------------------------------------------

  /** p is prefix followed by the keys down to some value of the patch, with dots between them. */
  ghost predicate InPatchPaths(patch: Fields, prefix: string, p: string)
    decreases Object(patch)
  {
    exists key :: key in patch &&
      (p == prefix + key || (patch[key].Object? && InPatchPaths(patch[key].fields, prefix + key + ['.'], p)))
  }

  method PatchPaths(patch: Fields, prefix: string) returns (paths: set<string>)
    ensures forall p :: p in paths <==> InPatchPaths(patch, prefix, p)
    decreases Object(patch)
  {
    paths := {};
    var left := patch.Keys;
    while left != {}
      invariant left <= patch.Keys
      invariant forall p :: p in paths <==>
        exists key :: key in patch && key !in left && UnderKey(patch, prefix, key, p)
      decreases |left|
    {
      var key :| key in left;
      left := left - {key};
      var path := prefix + key;
      paths := paths + {path};
      if patch[key].Object? {
        var inner := PatchPaths(patch[key].fields, path + ['.']);
        paths := paths + inner;
      }
    }
  }

  ghost predicate UnderKey(patch: Fields, prefix: string, key: string, p: string)
    requires key in patch
  {
    p == prefix + key || (patch[key].Object? && InPatchPaths(patch[key].fields, prefix + key + ['.'], p))
  }

  /** The locked fields of a step. */
  function Locks(): seq<Path> {
    [["id"], ["action"], ["risk"], ["on_fail"], ["value"], ["option_label"], ["url"], ["key"], ["dialog"],
     ["target", "fingerprint", "role"], ["target", "fingerprint", "input_type"], ["target", "fingerprint", "kind"]]
  }

  predicate StartsWith(s: string, prefix: string) {
    prefix <= s
  }

  predicate AtOrBelow(p: string, lock: Path) {
    p == Dotted(lock) || StartsWith(p, Dotted(lock) + ['.'])
  }

  /** What the check reports for a patch: its paths at or below a lock. */
  ghost predicate IsLocked(patch: Fields, p: string) {
    InPatchPaths(patch, [], p) && exists i :: 0 <= i < |Locks()| && AtOrBelow(p, Locks()[i])
  }

  method LockedPaths(patch: Fields) returns (locked: set<string>)
    ensures forall p :: p in locked <==> IsLocked(patch, p)
  {
    hide Locks, AtOrBelow, InPatchPaths;
    var paths := PatchPaths(patch, []);
    locked := {};
    var locks := Locks();
    for i := 0 to |locks|
      invariant forall p :: p in locked <==> p in paths && exists j :: 0 <= j < i && AtOrBelow(p, locks[j])
    {
      locked := locked + set p | p in paths && AtOrBelow(p, locks[i]);
    }
  }

  ghost predicate Passes(patch: Fields) {
    forall p :: !IsLocked(patch, p)
  }

  // ---- the check on strings, in terms of keys ------------------------------------------------------

  lemma {:induction false} SetsIsListed(patch: Fields, prefix: string, path: Path)
    requires Sets(patch, path)
    ensures InPatchPaths(patch, prefix, prefix + Dotted(path))
    decreases |path|
  {
    var key := path[0];
    if |path| > 1 {
      SetsIsListed(patch[key].fields, prefix + key + ['.'], path[1..]);
      assert prefix + Dotted(path) == prefix + key + ['.'] + Dotted(path[1..]);
    }
  }

  lemma SettingIsLocked(patch: Fields, i: nat)
    requires i < |Locks()| && Sets(patch, Locks()[i])
    ensures IsLocked(patch, Dotted(Locks()[i]))
  {
    hide Locks, InPatchPaths, Dotted;
    SetsIsListed(patch, [], Locks()[i]);
    assert [] + Dotted(Locks()[i]) == Dotted(Locks()[i]);
    assert AtOrBelow(Dotted(Locks()[i]), Locks()[i]);
  }

  /** A patch that passes sets no locked path. */
  lemma PassingSetsNoLock(patch: Fields, i: nat)
    requires Passes(patch) && i < |Locks()|
    ensures !Sets(patch, Locks()[i])
  {
    hide Locks, IsLocked;
    if Sets(patch, Locks()[i]) { SettingIsLocked(patch, i); }
  }

  predicate DotFree(s: string) {
    '.' !in s
  }

  /** No key of the patch, at any depth, holds a dot. */
  predicate PlainKeys(patch: Fields)
    decreases Object(patch)
  {
    forall k :: k in patch ==> DotFree(k) && (patch[k].Object? ==> PlainKeys(patch[k].fields))
  }

  predicate PlainPath(path: Path) {
    forall i :: 0 <= i < |path| ==> DotFree(path[i])
  }

  /** Every component with a dot after it. */
  function Terminated(path: Path): string {
    if path == [] then [] else path[0] + ['.'] + Terminated(path[1..])
  }

  lemma {:induction false} DottedTerminated(path: Path)
    requires path != []
    ensures Dotted(path) + ['.'] == Terminated(path)
  {
    if |path| > 1 {
      DottedTerminated(path[1..]);
      assert Dotted(path) + ['.'] == path[0] + ['.'] + (Dotted(path[1..]) + ['.']);
    } else {
      assert path[1..] == [];
      assert path[0] + ['.'] + [] == path[0] + ['.'];
    }
  }

  lemma {:induction false} FirstComponent(a: string, x: string, b: string, y: string)
    requires DotFree(a) && DotFree(b) && a + ['.'] + x <= b + ['.'] + y
    ensures a == b && x <= y
    decreases |a|
  {
    var s, t := a + ['.'] + x, b + ['.'] + y;
    assert s[0] == t[0];
    assert s[1..] <= t[1..];
    if a != [] && b != [] {
      assert s[1..] == a[1..] + ['.'] + x && t[1..] == b[1..] + ['.'] + y;
      FirstComponent(a[1..], x, b[1..], y);
    } else if a == [] && b == [] {
      assert s[1..] == x && t[1..] == y;
    }
  }

  lemma {:induction false} TerminatedPrefix(lock: Path, path: Path)
    requires PlainPath(lock) && PlainPath(path) && Terminated(lock) <= Terminated(path)
    ensures lock <= path
    decreases |lock|
  {
    if lock != [] && path != [] {
      FirstComponent(lock[0], Terminated(lock[1..]), path[0], Terminated(path[1..]));
      TerminatedPrefix(lock[1..], path[1..]);
      assert lock == [lock[0]] + lock[1..] && path == [path[0]] + path[1..];
    }
  }

  lemma {:induction false} SetsPrefix(patch: Fields, path: Path, n: nat)
    requires Sets(patch, path) && 0 < n <= |path|
    ensures Sets(patch, path[..n])
    decreases |path|
  {
    if n > 1 {
      SetsPrefix(patch[path[0]].fields, path[1..], n - 1);
      assert path[..n][1..] == path[1..][..n - 1];
    }
  }

  lemma {:induction false} ListedIsSet(patch: Fields, prefix: string, p: string) returns (path: Path)
    requires PlainKeys(patch) && InPatchPaths(patch, prefix, p)
    ensures Sets(patch, path) && PlainPath(path) && p == prefix + Dotted(path)
    decreases Object(patch)
  {
    var key :| key in patch &&
      (p == prefix + key || (patch[key].Object? && InPatchPaths(patch[key].fields, prefix + key + ['.'], p)));
    if p == prefix + key {
      path := [key];
    } else {
      var rest := ListedIsSet(patch[key].fields, prefix + key + ['.'], p);
      path := [key] + rest;
      assert path[1..] == rest;
      assert prefix + key + ['.'] + Dotted(rest) == prefix + Dotted(path);
    }
  }

  lemma LocksArePlain()
    ensures forall i :: 0 <= i < |Locks()| ==> PlainPath(Locks()[i]) && Locks()[i] != []
  {
  }

  /** For patches whose keys hold no dots, the check refuses exactly those that set a locked field. */
  lemma CheckIsExact(patch: Fields)
    requires PlainKeys(patch)
    ensures Passes(patch) <==> forall i :: 0 <= i < |Locks()| ==> !Sets(patch, Locks()[i])
  {
    hide Locks, InPatchPaths, Dotted, PlainKeys, Terminated;
    if Passes(patch) {
      forall i | 0 <= i < |Locks()| ensures !Sets(patch, Locks()[i]) { PassingSetsNoLock(patch, i); }
    } else {
      var p :| IsLocked(patch, p);
      var i :| 0 <= i < |Locks()| && AtOrBelow(p, Locks()[i]);
      var lock := Locks()[i];
      var path := ListedIsSet(patch, [], p);
      assert [] + Dotted(path) == Dotted(path);
      LocksArePlain();
      DottedTerminated(lock);
      DottedTerminated(path);
      assert Terminated(lock) <= Terminated(path);
      TerminatedPrefix(lock, path);
      SetsPrefix(patch, path, |lock|);
      assert path[..|lock|] == lock;
    }
  }

  /**
   * A passing patch leaves a locked field alone unless it puts something other than an object where
   * the base has one on the way; a lock of one component has no way, and always holds.
   */
  lemma LocksSurvive(base: Fields, patch: Fields, i: nat)
    requires Passes(patch) && i < |Locks()|
    ensures Lookup(Merge(base, patch), Locks()[i]) == Lookup(base, Locks()[i]) <==>
      Lookup(base, Locks()[i]).None? || !Cuts(patch, Locks()[i])
    ensures |Locks()[i]| == 1 ==> Lookup(Merge(base, patch), Locks()[i]) == Lookup(base, Locks()[i])
  {
    hide Locks, Merge, Passes;
    PassingSetsNoLock(patch, i);
    UnsetPathSurvives(base, patch, Locks()[i]);
  }

  /** Such a patch passes the check on paths, though a locked field below the replaced object is gone. */
  lemma LockLostBelowScalar()
    ensures var base := map["target" := Object(map["fingerprint" := Object(map["role" := Text("textbox")])])];
      var patch := map["target" := Text("gone")];
      var role := ["target", "fingerprint", "role"];
      && role in Locks() && PlainKeys(patch) && Passes(patch)
      && Lookup(base, role) == Some(Text("textbox")) && Lookup(Merge(base, patch), role) == None
  {
    var base := map["target" := Object(map["fingerprint" := Object(map["role" := Text("textbox")])])];
    var patch := map["target" := Text("gone")];
    var role := ["target", "fingerprint", "role"];
    assert role == Locks()[9];
    CheckIsExact(patch);
    forall i | 0 <= i < |Locks()| ensures !Sets(patch, Locks()[i]) { }
    assert role[1..][1..] == ["role"] && role[1..][0] == "fingerprint";
  }

  // ---- resolving an artifact for a tenant ----------------------------------------------------------

  datatype Override = Override(entryUrl: Option<string>, steps: map<string, Fields>, checkpoints: map<string, Fields>)

  /** The dump of a capability, as far as overrides reach into it. */
  datatype Artifact = Artifact(
    web: bool, entryUrl: string, steps: seq<Fields>, checkpoints: map<string, Fields>, overrides: map<string, Override>)

  function Id(): Path {
    ["id"]
  }

  predicate HasId(step: Fields, id: string) {
    Lookup(step, Id()) == Some(Text(id))
  }

  /** What the artifact's own rules guarantee: distinct step ids, known references, no locked path. */
  ghost predicate WellFormed(a: Artifact) {
    && (forall i :: 0 <= i < |a.steps| ==> exists id :: HasId(a.steps[i], id))
    && (forall i, j, id :: 0 <= i < j < |a.steps| && HasId(a.steps[i], id) ==> !HasId(a.steps[j], id))
    && (forall t :: t in a.overrides ==> OverrideFits(a, a.overrides[t]))
  }

  ghost predicate OverrideFits(a: Artifact, o: Override) {
    && (forall id :: id in o.steps ==> Passes(o.steps[id]) && exists i :: 0 <= i < |a.steps| && HasId(a.steps[i], id))
    && (forall c :: c in o.checkpoints ==> c in a.checkpoints)
  }

  datatype Resolved = Resolved(artifact: Artifact) | UnknownTenant | EntryUrlNeedsWeb | Invalid | CredentialsLost

  /** A step is merged with the patch for its id, if there is one and it is not among those left. */
  ghost predicate StepResolved(was: Fields, now: Fields, patches: map<string, Fields>, left: set<string>) {
    forall id :: HasId(was, id) ==> now == if id in patches && id !in left then Merge(was, patches[id]) else was
  }

  ghost predicate Patched(was: Artifact, now: Artifact, o: Override) {
    && |now.steps| == |was.steps|
    && (forall i :: 0 <= i < |was.steps| ==> StepResolved(was.steps[i], now.steps[i], o.steps, {}))
    && now.checkpoints.Keys == was.checkpoints.Keys
    && (forall c :: c in was.checkpoints ==>
          now.checkpoints[c] ==
            if c in o.checkpoints then Merge(was.checkpoints[c], o.checkpoints[c]) else was.checkpoints[c])
    && now.entryUrl == (if o.entryUrl.Some? then o.entryUrl.value else was.entryUrl)
    && now.web == was.web
    && now.overrides == map[]
  }

  function IdOf(step: Fields): Option<string> {
    var v := Lookup(step, Id());
    if v.Some? && v.value.Text? then Some(v.value.text) else None
  }

  /** A step with the patch for its id merged in, if there is one. */
  function StepWith(step: Fields, patches: map<string, Fields>): Fields {
    if IdOf(step).Some? && IdOf(step).value in patches then Merge(step, patches[IdOf(step).value]) else step
  }

  /** The artifact a tenant's patches make of the base one, before anything checks it. */
  function Merged(a: Artifact, o: Override): Artifact {
    Artifact(
      a.web, if o.entryUrl.Some? then o.entryUrl.value else a.entryUrl,
      seq(|a.steps|, i requires 0 <= i < |a.steps| => StepWith(a.steps[i], o.steps)),
      map c | c in a.checkpoints ::
        if c in o.checkpoints then Merge(a.checkpoints[c], o.checkpoints[c]) else a.checkpoints[c],
      map[])
  }

  lemma ResolvedIsWith(was: Fields, now: Fields, patches: map<string, Fields>)
    requires exists id :: HasId(was, id)
    ensures StepResolved(was, now, patches, {}) <==> now == StepWith(was, patches)
  {
    hide Merge, Lookup;
    var id :| HasId(was, id);
    assert IdOf(was) == Some(id);
  }

  /** Nothing but the merged artifact is the base one with the patches applied. */
  lemma MergedIsPatched(a: Artifact, now: Artifact, o: Override)
    requires WellFormed(a) && OverrideFits(a, o)
    ensures Patched(a, now, o) <==> now == Merged(a, o)
  {
    hide Merge, StepResolved, StepWith, HasId, Passes;
    forall i | 0 <= i < |a.steps|
      ensures forall step :: StepResolved(a.steps[i], step, o.steps, {}) <==> step == StepWith(a.steps[i], o.steps)
    {
      forall step ensures StepResolved(a.steps[i], step, o.steps, {}) <==> step == StepWith(a.steps[i], o.steps) {
        ResolvedIsWith(a.steps[i], step, o.steps);
      }
    }
  }

  method PatchSteps(steps: seq<Fields>, patches: map<string, Fields>) returns (patched: seq<Fields>)
    requires forall i, j, id :: 0 <= i < j < |steps| && HasId(steps[i], id) ==> !HasId(steps[j], id)
    requires forall id :: id in patches ==> exists i :: 0 <= i < |steps| && HasId(steps[i], id)
    ensures |patched| == |steps|
    ensures forall i :: 0 <= i < |steps| ==> StepResolved(steps[i], patched[i], patches, {})
  {
    hide Merge, StepResolved, HasId;
    patched := steps;
    var left := patches.Keys;
    forall i | 0 <= i < |steps| ensures StepResolved(steps[i], patched[i], patches, left) {
      NothingPatched(steps[i], patches);
    }
    while left != {}
      invariant left <= patches.Keys && |patched| == |steps|
      invariant forall i :: 0 <= i < |steps| ==> StepResolved(steps[i], patched[i], patches, left)
      decreases |left|
    {
      var id :| id in left;
      var p :| 0 <= p < |steps| && HasId(steps[p], id);
      OneId(steps, p, id);
      NotYetPatched(steps[p], patched[p], patches, left, id);
      var merged := DeepMerge(patched[p], patches[id]);
      forall i | 0 <= i < |steps|
        ensures StepResolved(steps[i], if i == p then merged else patched[i], patches, left - {id})
      {
        PatchedNext(steps[i], patched[i], patches, left, id);
      }
      left := left - {id};
      patched := patched[p := merged];
    }
  }

  lemma NothingPatched(step: Fields, patches: map<string, Fields>)
    ensures StepResolved(step, step, patches, patches.Keys)
  {
  }

  lemma NotYetPatched(was: Fields, now: Fields, patches: map<string, Fields>, left: set<string>, id: string)
    requires StepResolved(was, now, patches, left) && HasId(was, id) && id in left
    ensures now == was
  {
  }

  lemma PatchedNext(was: Fields, now: Fields, patches: map<string, Fields>, left: set<string>, id: string)
    requires StepResolved(was, now, patches, left) && id in left && id in patches
    ensures !HasId(was, id) ==> StepResolved(was, now, patches, left - {id})
    ensures HasId(was, id) ==> StepResolved(was, Merge(was, patches[id]), patches, left - {id})
  {
    hide Merge;
  }

  lemma OneId(steps: seq<Fields>, p: nat, id: string)
    requires forall i, j, x :: 0 <= i < j < |steps| && HasId(steps[i], x) ==> !HasId(steps[j], x)
    requires p < |steps| && HasId(steps[p], id)
    ensures forall i :: 0 <= i < |steps| && i != p ==> !HasId(steps[i], id)
    ensures forall x :: HasId(steps[p], x) ==> x == id
  {
  }

  method PatchCheckpoints(checkpoints: map<string, Fields>, patches: map<string, Fields>)
    returns (patched: map<string, Fields>)
    requires forall c :: c in patches ==> c in checkpoints
    ensures patched.Keys == checkpoints.Keys
    ensures forall c :: c in checkpoints ==>
      patched[c] == if c in patches then Merge(checkpoints[c], patches[c]) else checkpoints[c]
  {
    hide Merge;
    patched := checkpoints;
    var left := patches.Keys;
    while left != {}
      invariant left <= patches.Keys && patched.Keys == checkpoints.Keys
      invariant forall c :: c in checkpoints ==>
        patched[c] == if c in patches && c !in left then Merge(checkpoints[c], patches[c]) else checkpoints[c]
      decreases |left|
    {
      var c :| c in left;
      left := left - {c};
      var merged := DeepMerge(patched[c], patches[c]);
      patched := patched[c := merged];
    }
  }

  /** valid is the artifact schema, credentials the steps whose target looks like a credential field. */
  method ResolveForTenant(a: Artifact, tenant: Option<string>, valid: Artifact -> bool,
    credentials: Artifact -> set<string>)
    returns (r: Resolved)
    requires WellFormed(a)
    ensures tenant.None? ==> r == Resolved(a)
    ensures tenant.Some? ==> (r.UnknownTenant? <==> tenant.value !in a.overrides)
    ensures tenant.Some? && tenant.value in a.overrides ==>
      (r.EntryUrlNeedsWeb? <==> a.overrides[tenant.value].entryUrl.Some? && !a.web)
    ensures tenant.Some? && !r.UnknownTenant? && !r.EntryUrlNeedsWeb? ==>
      var merged := Merged(a, a.overrides[tenant.value]);
      && (r.Invalid? <==> !valid(merged))
      && (r.CredentialsLost? <==> valid(merged) && !(credentials(a) <= credentials(merged)))
      && (r.Resolved? ==> r.artifact == merged)
  {
    hide StepResolved, HasId, Passes, Merge, Merged;
    if tenant.None? {
      return Resolved(a);
    }
    if tenant.value !in a.overrides {
      return UnknownTenant;
    }
    var o := a.overrides[tenant.value];
    assert OverrideFits(a, o);
    var steps := PatchSteps(a.steps, o.steps);
    var checkpoints := PatchCheckpoints(a.checkpoints, o.checkpoints);
    var entryUrl := a.entryUrl;
    if o.entryUrl.Some? {
      if !a.web {
        return EntryUrlNeedsWeb;
      }
      entryUrl := o.entryUrl.value;
    }
    var resolved := Artifact(a.web, entryUrl, steps, checkpoints, map[]);
    MergedIsPatched(a, resolved, o);
    if !valid(resolved) {
      return Invalid;
    }
    var lost := credentials(a) - credentials(resolved);
    if lost != {} {
      return CredentialsLost;
    }
    assert forall c :: c in credentials(a) && c !in credentials(resolved) ==> c in lost;
    return Resolved(resolved);
  }

  lemma IdIsLocked()
    ensures |Locks()| > 0 && Locks()[0] == Id() && |Id()| == 1
  {
  }

  /**
   * A tenant's capability has the same steps in the same order, each with the id and every other
   * top-level locked field of the base step.
   */
  lemma ResolvingKeepsLocks(a: Artifact, now: Artifact, o: Override, i: nat, lock: nat)
    requires WellFormed(a) && OverrideFits(a, o) && Patched(a, now, o)
    requires i < |a.steps| && lock < |Locks()|
    ensures |now.steps| == |a.steps|
    ensures forall id :: HasId(a.steps[i], id) ==> HasId(now.steps[i], id)
    ensures |Locks()[lock]| == 1 ==> Lookup(now.steps[i], Locks()[lock]) == Lookup(a.steps[i], Locks()[lock])
  {
    hide Locks, Merge, Passes, Id;
    var id :| HasId(a.steps[i], id);
    assert StepResolved(a.steps[i], now.steps[i], o.steps, {});
    IdIsLocked();
    if id in o.steps {
      LocksSurvive(a.steps[i], o.steps[id], lock);
      LocksSurvive(a.steps[i], o.steps[id], 0);
    }
  }
}
