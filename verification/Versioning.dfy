/** Semver rules for capabilities: what a change needs, what a version gives, and what a catalog keeps. */
module Versioning {
  import opened Vocab
  import opened Json

  // ---- versions ------------------------------------------------------------------------------------

  datatype Version = Version(major: nat, minor: nat, patch: nat)

  /** Precedence of section 11 of Semantic Versioning 2.0.0, without pre-releases. */
  predicate Before(v: Version, w: Version) {
    || v.major < w.major
    || (v.major == w.major && v.minor < w.minor)
    || (v.major == w.major && v.minor == w.minor && v.patch < w.patch)
  }

  datatype Bump = NoBump | Patch | Minor | Major

  function Rank(b: Bump): nat {
    match b
    case NoBump => 0
    case Patch => 1
    case Minor => 2
    case Major => 3
  }

  function Max(a: nat, b: nat): nat {
    if a >= b then a else b
  }

  function ActualBump(old_: Version, new_: Version): (b: Option<Bump>)
    ensures b.None? <==> Before(new_, old_)
  {
    if Before(new_, old_) then None
    else if new_ == old_ then Some(NoBump)
    else if new_.major > old_.major then Some(Major)
    else Some(if new_.minor > old_.minor then Minor else Patch)
  }

  /** Two bumps in a row are the larger one. */
  lemma BumpsCompose(u: Version, v: Version, w: Version)
    requires ActualBump(u, v).Some? && ActualBump(v, w).Some?
    ensures ActualBump(u, w).Some?
    ensures Rank(ActualBump(u, w).value) == Max(Rank(ActualBump(u, v).value), Rank(ActualBump(v, w).value))
  {
  }

  // ---- capabilities --------------------------------------------------------------------------------

  datatype ParamType = StringParam | IntegerParam | MoneyParam | BooleanParam | EnumParam
  datatype OutputType = StringOutput | IntegerOutput | MoneyOutput | DateOutput
  datatype CodeKind = BusinessCode | RecoverableCode | HardCode
  datatype SecretKind = Credential | Identity
  datatype SurfaceKind = Web | Desktop

  datatype InputParam = InputParam(
    name: string, kind: ParamType, required: bool, pattern: Option<string>, enumValues: Option<seq<string>>,
    sensitive: bool)
  datatype Output = Output(name: string, kind: OutputType, sensitive: bool)
  datatype DetectorCode = DetectorCode(code: string, kind: CodeKind)
  datatype Secret = Secret(name: string, kind: SecretKind, envVar: string)

  /** dump is the artifact as JSON, without its version, status, approval and creation fields. */
  datatype Capability = Capability(
    id: string, version: Version, policyRef: string, surface: SurfaceKind,
    inputs: seq<InputParam>, outputs: seq<Output>, codes: seq<DetectorCode>, secrets: seq<Secret>,
    dump: map<string, Json>)

  /** Dictionaries by name: a later entry replaces an earlier one. */
  function Inputs(ps: seq<InputParam>): map<string, InputParam> {
    if ps == [] then map[] else var p := ps[|ps| - 1]; Inputs(ps[..|ps| - 1])[p.name := p]
  }

  function Outputs(os: seq<Output>): map<string, Output> {
    if os == [] then map[] else var o := os[|os| - 1]; Outputs(os[..|os| - 1])[o.name := o]
  }

  function Codes(cs: seq<DetectorCode>): map<string, CodeKind> {
    if cs == [] then map[] else var c := cs[|cs| - 1]; Codes(cs[..|cs| - 1])[c.code := c.kind]
  }

  function SecretShape(ss: seq<Secret>): map<string, (SecretKind, string)> {
    if ss == [] then map[] else var s := ss[|ss| - 1]; SecretShape(ss[..|ss| - 1])[s.name := (s.kind, s.envVar)]
  }

  lemma {:induction false} InputsByName(ps: seq<InputParam>)
    ensures forall n :: n in Inputs(ps) ==> Inputs(ps)[n] in ps && Inputs(ps)[n].name == n
    ensures forall p :: p in ps ==> p.name in Inputs(ps)
  {
    if ps != [] {
      InputsByName(ps[..|ps| - 1]);
      assert ps == ps[..|ps| - 1] + [ps[|ps| - 1]];
    }
  }

  lemma {:induction false} OutputsByName(os: seq<Output>)
    ensures forall n :: n in Outputs(os) ==> Outputs(os)[n] in os && Outputs(os)[n].name == n
  {
    if os != [] {
      OutputsByName(os[..|os| - 1]);
      assert os == os[..|os| - 1] + [os[|os| - 1]];
    }
  }

  // ---- what breaks a contract ----------------------------------------------------------------------

  datatype InputField = TypeField | PatternField | EnumField | SensitiveField

  datatype Break =
    | InputRemoved(name: string)
    | InputChanged(name: string, field: InputField)
    | InputBecameRequired(name: string)
    | NewRequiredInput(name: string)
    | OutputRemoved(name: string)
    | OutputChanged(name: string)
    | OutcomeChanged(code: string)
    | SecretsChanged
    | SurfaceChanged
    | PolicyChanged

  predicate Differs(f: InputField, a: InputParam, b: InputParam) {
    match f
    case TypeField => a.kind != b.kind
    case PatternField => a.pattern != b.pattern
    case EnumField => a.enumValues != b.enumValues
    case SensitiveField => a.sensitive != b.sensitive
  }

  predicate SameOutput(a: Output, b: Output) {
    a.kind == b.kind && a.sensitive == b.sensitive
  }

  ghost predicate InputBreak(was: map<string, InputParam>, now: map<string, InputParam>, b: Break) {
    match b
    case InputRemoved(n) => n in was && n !in now
    case InputChanged(n, f) => n in was && n in now && Differs(f, was[n], now[n])
    case InputBecameRequired(n) => n in was && n in now && now[n].required && !was[n].required
    case NewRequiredInput(n) => n in now && n !in was && now[n].required
    case _ => false
  }

  ghost predicate OutputBreak(was: seq<Output>, now: map<string, Output>, b: Break) {
    match b
    case OutputRemoved(n) => n !in now && exists o :: o in was && o.name == n
    case OutputChanged(n) => n in now && exists o :: o in was && o.name == n && !SameOutput(o, now[n])
    case _ => false
  }

  ghost predicate CodeBreak(was: map<string, CodeKind>, now: map<string, CodeKind>, b: Break) {
    b.OutcomeChanged? && b.code in was && (b.code !in now || now[b.code] != was[b.code])
  }

  /** The changes that break the contract, one by one. */
  ghost predicate IsBreak(was: Capability, now: Capability, b: Break) {
    || InputBreak(Inputs(was.inputs), Inputs(now.inputs), b)
    || OutputBreak(was.outputs, Outputs(now.outputs), b)
    || CodeBreak(Codes(was.codes), Codes(now.codes), b)
    || (b.SecretsChanged? && SecretShape(was.secrets) != SecretShape(now.secrets))
    || (b.SurfaceChanged? && was.surface != now.surface)
    || (b.PolicyChanged? && was.policyRef != now.policyRef)
  }

  /** One parameter replaces another without any caller noticing. */
  predicate KeepsInput(a: InputParam, b: InputParam) {
    && a.kind == b.kind && a.pattern == b.pattern && a.enumValues == b.enumValues && a.sensitive == b.sensitive
    && (b.required ==> a.required)
  }

  /** Nothing a caller or a deployment relies on is gone, and nothing more is asked of them. */
  predicate KeepsContract(was: Capability, now: Capability) {
    && (forall n :: n in Inputs(was.inputs) ==>
          n in Inputs(now.inputs) && KeepsInput(Inputs(was.inputs)[n], Inputs(now.inputs)[n]))
    && (forall n :: n in Inputs(now.inputs) && Inputs(now.inputs)[n].required ==> n in Inputs(was.inputs))
    && (forall o :: o in was.outputs ==>
          o.name in Outputs(now.outputs) && SameOutput(o, Outputs(now.outputs)[o.name]))
    && (forall c :: c in Codes(was.codes) ==>
          c in Codes(now.codes) && Codes(now.codes)[c] == Codes(was.codes)[c])
    && SecretShape(was.secrets) == SecretShape(now.secrets)
    && was.surface == now.surface
    && was.policyRef == now.policyRef
  }

  /** What happened to one parameter the old version declares. */
  ghost predicate BreakOf(was: map<string, InputParam>, now: map<string, InputParam>, n: string, b: Break) {
    InputBreak(was, now, b) && !b.NewRequiredInput? && b.name == n
  }

  method BreaksOf(was: map<string, InputParam>, now: map<string, InputParam>, n: string) returns (breaks: seq<Break>)
    requires n in was
    ensures forall b :: b in breaks <==> BreakOf(was, now, n, b)
  {
    if n !in now {
      return [InputRemoved(n)];
    }
    breaks := ChangedFields(n, was[n], now[n]);
    if now[n].required && !was[n].required {
      breaks := breaks + [InputBecameRequired(n)];
    }
  }

  method ChangedFields(n: string, a: InputParam, b: InputParam) returns (breaks: seq<Break>)
    ensures forall x :: x in breaks <==> x.InputChanged? && x.name == n && Differs(x.field, a, b)
  {
    breaks := [];
    var fields := [TypeField, PatternField, EnumField, SensitiveField];
    for i := 0 to |fields|
      invariant forall x :: x in breaks <==>
        x.InputChanged? && x.name == n && x.field in fields[..i] && Differs(x.field, a, b)
    {
      assert fields[..i + 1] == fields[..i] + [fields[i]];
      if Differs(fields[i], a, b) {
        breaks := breaks + [InputChanged(n, fields[i])];
      }
    }
    assert fields[..|fields|] == fields;
    assert fields[0] == TypeField && fields[1] == PatternField && fields[2] == EnumField && fields[3] == SensitiveField;
    forall f: InputField ensures f in fields {
      match f { case TypeField => case PatternField => case EnumField => case SensitiveField => }
    }
  }

  method InputBreaks(was: map<string, InputParam>, now: map<string, InputParam>) returns (breaks: seq<Break>)
    ensures forall b :: b in breaks <==> InputBreak(was, now, b)
  {
    hide InputBreak;
    var kept := KeptInputBreaks(was, now);
    var added := NewInputBreaks(was, now);
    breaks := kept + added;
    forall b ensures InputBreak(was, now, b) <==> b in kept || b in added { SplitsInputBreak(was, now, b); }
  }

  lemma SplitsInputBreak(was: map<string, InputParam>, now: map<string, InputParam>, b: Break)
    ensures InputBreak(was, now, b) <==>
      (exists n :: n in was && BreakOf(was, now, n, b)) || (b.NewRequiredInput? && InputBreak(was, now, b))
  {
    if InputBreak(was, now, b) && !b.NewRequiredInput? {
      assert b.name in was && BreakOf(was, now, b.name, b);
    }
  }

  method KeptInputBreaks(was: map<string, InputParam>, now: map<string, InputParam>) returns (breaks: seq<Break>)
    ensures forall b :: b in breaks <==> exists n :: n in was && BreakOf(was, now, n, b)
  {
    hide BreakOf;
    breaks := [];
    var left := was.Keys;
    while left != {}
      invariant left <= was.Keys
      invariant forall b :: b in breaks <==> exists n :: n in was && n !in left && BreakOf(was, now, n, b)
      decreases |left|
    {
      var n :| n in left;
      left := left - {n};
      var found := BreaksOf(was, now, n);
      breaks := breaks + found;
    }
  }

  method NewInputBreaks(was: map<string, InputParam>, now: map<string, InputParam>) returns (breaks: seq<Break>)
    ensures forall b :: b in breaks <==> b.NewRequiredInput? && InputBreak(was, now, b)
  {
    breaks := [];
    var left := now.Keys;
    while left != {}
      invariant left <= now.Keys
      invariant forall b :: b in breaks <==>
        b.NewRequiredInput? && b.name in now && b.name !in left && b.name !in was && now[b.name].required
      decreases |left|
    {
      var n :| n in left;
      left := left - {n};
      if now[n].required && n !in was {
        breaks := breaks + [NewRequiredInput(n)];
      }
    }
  }

  method OutputBreaks(was: seq<Output>, now: map<string, Output>) returns (breaks: seq<Break>)
    ensures forall b :: b in breaks <==> OutputBreak(was, now, b)
  {
    breaks := [];
    for i := 0 to |was|
      invariant forall b :: b in breaks <==> OutputBreak(was[..i], now, b)
    {
      var o := was[i];
      assert was[..i + 1] == was[..i] + [o];
      if o.name !in now {
        breaks := breaks + [OutputRemoved(o.name)];
      } else if !SameOutput(o, now[o.name]) {
        breaks := breaks + [OutputChanged(o.name)];
      }
    }
    assert was[..|was|] == was;
  }

  method CodeBreaks(was: map<string, CodeKind>, now: map<string, CodeKind>) returns (breaks: seq<Break>)
    ensures forall b :: b in breaks <==> CodeBreak(was, now, b)
  {
    breaks := [];
    var left := was.Keys;
    while left != {}
      invariant left <= was.Keys
      invariant forall b :: b in breaks <==> CodeBreak(was, now, b) && b.code !in left
      decreases |left|
    {
      var c :| c in left;
      left := left - {c};
      if c !in now || now[c] != was[c] {
        breaks := breaks + [OutcomeChanged(c)];
      }
    }
  }

  method ContractBreaks(was: Capability, now: Capability) returns (breaks: seq<Break>)
    ensures forall b :: b in breaks <==> IsBreak(was, now, b)
    ensures breaks == [] <==> KeepsContract(was, now)
  {
    hide Inputs, Outputs, Codes, SecretShape, KeepsContract;
    breaks := InputBreaks(Inputs(was.inputs), Inputs(now.inputs));
    var more := OutputBreaks(was.outputs, Outputs(now.outputs));
    breaks := breaks + more;
    more := CodeBreaks(Codes(was.codes), Codes(now.codes));
    breaks := breaks + more;
    if SecretShape(was.secrets) != SecretShape(now.secrets) {
      breaks := breaks + [SecretsChanged];
    }
    if was.surface != now.surface {
      breaks := breaks + [SurfaceChanged];
    }
    if was.policyRef != now.policyRef {
      breaks := breaks + [PolicyChanged];
    }
    NoBreakMeansKept(was, now);
    if breaks != [] {
      assert breaks[0] in breaks;
    }
  }

  lemma NoBreakMeansKept(was: Capability, now: Capability)
    ensures (forall b :: !IsBreak(was, now, b)) <==> KeepsContract(was, now)
  {
    hide Inputs, Outputs, Codes, SecretShape;
    if forall b :: !IsBreak(was, now, b) {
      var i, j := Inputs(was.inputs), Inputs(now.inputs);
      forall n | n in i ensures n in j && KeepsInput(i[n], j[n]) {
        assert !IsBreak(was, now, InputRemoved(n));
        assert !IsBreak(was, now, InputChanged(n, TypeField)) && !IsBreak(was, now, InputChanged(n, PatternField));
        assert !IsBreak(was, now, InputChanged(n, EnumField)) && !IsBreak(was, now, InputChanged(n, SensitiveField));
        assert !IsBreak(was, now, InputBecameRequired(n));
      }
      forall n | n in j && j[n].required ensures n in i { assert !IsBreak(was, now, NewRequiredInput(n)); }
      forall o | o in was.outputs
        ensures o.name in Outputs(now.outputs) && SameOutput(o, Outputs(now.outputs)[o.name])
      {
        assert !IsBreak(was, now, OutputRemoved(o.name)) && !IsBreak(was, now, OutputChanged(o.name));
      }
      forall c | c in Codes(was.codes) ensures c in Codes(now.codes) && Codes(now.codes)[c] == Codes(was.codes)[c] {
        assert !IsBreak(was, now, OutcomeChanged(c));
      }
      assert !IsBreak(was, now, SecretsChanged) && !IsBreak(was, now, SurfaceChanged)
        && !IsBreak(was, now, PolicyChanged);
    }
  }

  // ---- the bump a change needs ---------------------------------------------------------------------

  function WordingKeys(): set<string> {
    {"description", "notes", "review_notes"}
  }

  function FlowKeys(): set<string> {
    {"surface", "secrets", "inputs", "outputs", "steps", "checkpoints", "outcome_detectors", "success",
     "tenant_overrides"}
  }

  function StripWording(v: Json): Json {
    match v
    case Object(fields) => Object(map k | k in fields && k !in WordingKeys() :: StripWording(fields[k]))
    case Array(items) => Array(seq(|items|, i requires 0 <= i < |items| => StripWording(items[i])))
    case _ => v
  }

  /** Two values that differ at most in what wording keys hold, at any depth. */
  ghost predicate SameButWording(v: Json, w: Json) {
    match v
    case Object(fields) =>
      && w.Object?
      && fields.Keys - WordingKeys() == w.fields.Keys - WordingKeys()
      && forall k :: k in fields && k !in WordingKeys() ==> k in w.fields && SameButWording(fields[k], w.fields[k])
    case Array(items) =>
      w.Array? && |items| == |w.items| && forall i :: 0 <= i < |items| ==> SameButWording(items[i], w.items[i])
    case _ => v == w
  }

  lemma {:induction false} StripDecidesWording(v: Json, w: Json)
    ensures StripWording(v) == StripWording(w) <==> SameButWording(v, w)
  {
    hide WordingKeys;
    if v.Object? && w.Object? {
      var a, b := StripWording(v).fields, StripWording(w).fields;
      assert a.Keys == v.fields.Keys - WordingKeys() && b.Keys == w.fields.Keys - WordingKeys();
      forall k | k in a && k in b ensures a[k] == b[k] <==> SameButWording(v.fields[k], w.fields[k]) {
        StripDecidesWording(v.fields[k], w.fields[k]);
      }
      if SameButWording(v, w) {
        forall k | k in a ensures k in b && a[k] == b[k] { assert k in v.fields.Keys - WordingKeys(); }
        assert a == b;
      }
      if a == b {
        forall k | k in v.fields && k !in WordingKeys()
          ensures k in w.fields && SameButWording(v.fields[k], w.fields[k])
        {
          assert k in a && k in b;
        }
      }
    } else if v.Array? && w.Array? {
      var a, b := StripWording(v).items, StripWording(w).items;
      forall i | 0 <= i < |a| && i < |b| ensures a[i] == b[i] <==> SameButWording(v.items[i], w.items[i]) {
        StripDecidesWording(v.items[i], w.items[i]);
      }
      if SameButWording(v, w) { assert a == b; }
    }
  }

  /** What of the flow a reader would call a change; wording is not. */
  predicate FlowChanged(was: map<string, Json>, now: map<string, Json>) {
    exists k :: k in FlowKeys() && Part(was, k) != Part(now, k)
  }

  /** Dumps hold every flow key; an absent one reads as null. */
  function Part(dump: map<string, Json>, k: string): Json {
    if k in dump then StripWording(dump[k]) else Null
  }

  function RequiredBump(was: Capability, now: Capability): (b: Option<Bump>) {
    if was.id != now.id then None
    else if !KeepsContract(was, now) then Some(Major)
    else if FlowChanged(was.dump, now.dump) then Some(Minor)
    else Some(if was.dump != now.dump then Patch else NoBump)
  }

  datatype Check = Needs(bump: Bump) | DifferentCapability | WentBackwards | TooSmall(required: Bump, actual: Bump)

  function CheckVersion(was: Capability, now: Capability): Check {
    var required := RequiredBump(was, now);
    if required.None? then DifferentCapability
    else
      var actual := ActualBump(was.version, now.version);
      if actual.None? then WentBackwards
      else if Rank(actual.value) < Rank(required.value) then TooSmall(required.value, actual.value)
      else Needs(required.value)
  }

  predicate Passes(was: Capability, now: Capability) {
    CheckVersion(was, now).Needs?
  }

  // ---- acceptance composes -------------------------------------------------------------------------

  lemma KeepsContractComposes(a: Capability, b: Capability, c: Capability)
    requires KeepsContract(a, b) && KeepsContract(b, c)
    ensures KeepsContract(a, c)
  {
    hide Inputs, Outputs, Codes, SecretShape;
    OutputsByName(b.outputs);
    forall n | n in Inputs(c.inputs) && Inputs(c.inputs)[n].required ensures n in Inputs(a.inputs) {
      assert n in Inputs(b.inputs) && KeepsInput(Inputs(b.inputs)[n], Inputs(c.inputs)[n]);
    }
    forall o | o in a.outputs ensures o.name in Outputs(c.outputs) && SameOutput(o, Outputs(c.outputs)[o.name]) {
      var via := Outputs(b.outputs)[o.name];
      assert via in b.outputs && via.name == o.name;
    }
  }

  /** Two changes together need no more than the larger of what each needs. */
  lemma RequiredSubadditive(a: Capability, b: Capability, c: Capability)
    requires RequiredBump(a, b).Some? && RequiredBump(b, c).Some?
    ensures RequiredBump(a, c).Some?
    ensures Rank(RequiredBump(a, c).value) <= Max(Rank(RequiredBump(a, b).value), Rank(RequiredBump(b, c).value))
  {
    hide KeepsContract, FlowKeys, Part;
    if KeepsContract(a, b) && KeepsContract(b, c) {
      KeepsContractComposes(a, b, c);
      if FlowChanged(a.dump, c.dump) {
        var k :| k in FlowKeys() && Part(a.dump, k) != Part(c.dump, k);
        assert FlowChanged(a.dump, b.dump) || FlowChanged(b.dump, c.dump) by {
          assert Part(a.dump, k) != Part(b.dump, k) || Part(b.dump, k) != Part(c.dump, k);
        }
      }
    }
  }

  lemma PassesComposes(a: Capability, b: Capability, c: Capability)
    requires Passes(a, b) && Passes(b, c)
    ensures Passes(a, c)
  {
    hide RequiredBump, ActualBump;
    RequiredSubadditive(a, b, c);
    BumpsCompose(a.version, b.version, c.version);
  }

  ghost predicate Chain(caps: seq<Capability>) {
    forall i :: 0 < i < |caps| ==> Passes(caps[i - 1], caps[i])
  }

  /**
   * Along any run of accepted versions every pair would be accepted too, so two of them that share a
   * major version break no contract.
   */
  lemma {:induction false} ChainPasses(caps: seq<Capability>, i: nat, j: nat)
    requires Chain(caps) && i < j < |caps|
    ensures Passes(caps[i], caps[j])
    ensures caps[i].version.major == caps[j].version.major ==> KeepsContract(caps[i], caps[j])
    decreases j - i
  {
    hide KeepsContract, FlowChanged, Passes;
    if i + 1 < j {
      ChainPasses(caps, i, j - 1);
      PassesComposes(caps[i], caps[j - 1], caps[j]);
    }
    if caps[i].version.major == caps[j].version.major {
      SameMajorKeeps(caps[i], caps[j]);
    }
  }

  lemma SameMajorKeeps(a: Capability, b: Capability)
    requires Passes(a, b) && a.version.major == b.version.major
    ensures KeepsContract(a, b)
  {
    hide KeepsContract, FlowChanged;
  }

  /** The check as it runs, over the list of breaks. */
  method CheckChange(was: Capability, now: Capability) returns (r: Check, breaks: seq<Break>)
    ensures r == CheckVersion(was, now)
    ensures forall b :: b in breaks <==> r.TooSmall? && r.required.Major? && IsBreak(was, now, b)
  {
    hide KeepsContract, IsBreak, FlowChanged;
    breaks := [];
    if was.id != now.id {
      return DifferentCapability, [];
    }
    var found := ContractBreaks(was, now);
    var required :=
      if found != [] then Major
      else if FlowChanged(was.dump, now.dump) then Minor
      else if was.dump != now.dump then Patch else NoBump;
    var actual := ActualBump(was.version, now.version);
    if actual.None? {
      return WentBackwards, [];
    }
    if Rank(actual.value) < Rank(required) {
      return TooSmall(required, actual.value), if required.Major? then found else [];
    }
    return Needs(required), [];
  }

  // ---- what a kept contract means to a caller ------------------------------------------------------

  /** The library's answers: does a value match a pattern, and is it a value of a type. */
  datatype Answers = Answers(matches: (string, string) -> bool, coerces: (ParamType, string) -> bool)

  predicate Fits(p: InputParam, value: string, lib: Answers) {
    && (p.pattern.Some? ==> lib.matches(p.pattern.value, value))
    && if p.kind.EnumParam? then p.enumValues.Some? && value in p.enumValues.value else lib.coerces(p.kind, value)
  }

  predicate ParamMet(p: InputParam, raw: map<string, string>, lib: Answers) {
    if p.name in raw then Fits(p, raw[p.name], lib) else !p.required
  }

  /** A call is accepted: it names only declared inputs, and every declared one is met. */
  ghost predicate Accepts(ps: seq<InputParam>, raw: map<string, string>, lib: Answers) {
    && (forall n :: n in raw ==> n in Inputs(ps))
    && (forall p :: p in ps ==> ParamMet(p, raw, lib))
  }

  datatype Problem = UnknownInputs(names: set<string>) | Unmet(name: string)

  method CoerceInputs(ps: seq<InputParam>, raw: map<string, string>, lib: Answers) returns (problems: seq<Problem>)
    ensures problems == [] <==> Accepts(ps, raw, lib)
    ensures forall p :: p in ps && !ParamMet(p, raw, lib) ==> Unmet(p.name) in problems
  {
    problems := [];
    var unknown := raw.Keys - Inputs(ps).Keys;
    if unknown != {} {
      problems := [UnknownInputs(unknown)];
    }
    assert problems == [] <==> forall n :: n in raw ==> n in Inputs(ps) by {
      assert forall n :: n in raw && n !in Inputs(ps) ==> n in unknown;
    }
    for i := 0 to |ps|
      invariant problems == [] <==>
        (forall n :: n in raw ==> n in Inputs(ps)) && forall p :: p in ps[..i] ==> ParamMet(p, raw, lib)
      invariant forall p :: p in ps[..i] && !ParamMet(p, raw, lib) ==> Unmet(p.name) in problems
    {
      assert ps[..i + 1] == ps[..i] + [ps[i]];
      if !ParamMet(ps[i], raw, lib) {
        problems := problems + [Unmet(ps[i].name)];
      }
    }
    assert ps[..|ps|] == ps;
  }

  ghost predicate DistinctInputs(ps: seq<InputParam>) {
    forall i, j :: 0 <= i < j < |ps| ==> ps[i].name != ps[j].name
  }

  lemma {:induction false} InputIsItsEntry(ps: seq<InputParam>, p: InputParam)
    requires DistinctInputs(ps) && p in ps
    ensures p.name in Inputs(ps) && Inputs(ps)[p.name] == p
  {
    var n := |ps| - 1;
    assert ps == ps[..n] + [ps[n]];
    if p != ps[n] {
      InputIsItsEntry(ps[..n], p);
    }
  }

  /** No contract break: every call the old version accepts, the new one accepts. */
  lemma CallsStayAccepted(a: Capability, b: Capability, raw: map<string, string>, lib: Answers)
    requires KeepsContract(a, b) && DistinctInputs(b.inputs)
    requires Accepts(a.inputs, raw, lib)
    ensures Accepts(b.inputs, raw, lib)
  {
    hide Inputs, Outputs, Codes, SecretShape;
    InputsByName(a.inputs);
    forall p | p in b.inputs ensures ParamMet(p, raw, lib) {
      InputIsItsEntry(b.inputs, p);
      if p.name in Inputs(a.inputs) {
        var q := Inputs(a.inputs)[p.name];
        assert q in a.inputs && ParamMet(q, raw, lib) && KeepsInput(q, p);
      }
    }
  }

  // ---- the catalog ---------------------------------------------------------------------------------

  /** Any two saved versions of a capability would pass the check against each other. */
  ghost predicate Coherent(caps: set<Capability>) {
    forall a, b :: a in caps && b in caps && Before(a.version, b.version) ==> Passes(a, b)
  }

  ghost predicate NewVersion(caps: set<Capability>, c: Capability) {
    forall a :: a in caps ==> a.version != c.version
  }

  ghost predicate Below(caps: set<Capability>, c: Capability, a: Capability) {
    a in caps && Before(a.version, c.version)
  }

  ghost predicate Above(caps: set<Capability>, c: Capability, a: Capability) {
    a in caps && Before(c.version, a.version)
  }

  /** The version saving compares against: the latest below. */
  ghost predicate LatestBelow(caps: set<Capability>, c: Capability, a: Capability) {
    Below(caps, c, a) && forall x :: Below(caps, c, x) ==> !Before(a.version, x.version)
  }

  /** Its mirror image, which saving does not look at. */
  ghost predicate FirstAbove(caps: set<Capability>, c: Capability, a: Capability) {
    Above(caps, c, a) && forall x :: Above(caps, c, x) ==> !Before(x.version, a.version)
  }

  lemma {:induction false} LatestExists(caps: set<Capability>, c: Capability, x: Capability)
    requires Below(caps, c, x)
    ensures exists a :: LatestBelow(caps, c, a)
    decreases caps
  {
    if !LatestBelow(caps, c, x) {
      var y :| Below(caps, c, y) && Before(x.version, y.version);
      LatestExists(caps - {x}, c, y);
      var a :| LatestBelow(caps - {x}, c, a);
      forall z | Below(caps, c, z) ensures !Before(a.version, z.version) {
        if z != x { assert Below(caps - {x}, c, z); } else { assert Below(caps - {x}, c, y); }
      }
      assert LatestBelow(caps, c, a);
    }
  }

  lemma {:induction false} FirstExists(caps: set<Capability>, c: Capability, x: Capability)
    requires Above(caps, c, x)
    ensures exists a :: FirstAbove(caps, c, a)
    decreases caps
  {
    if !FirstAbove(caps, c, x) {
      var y :| Above(caps, c, y) && Before(y.version, x.version);
      FirstExists(caps - {x}, c, y);
      var a :| FirstAbove(caps - {x}, c, a);
      forall z | Above(caps, c, z) ensures !Before(z.version, a.version) {
        if z != x { assert Above(caps - {x}, c, z); } else { assert Above(caps - {x}, c, y); }
      }
      assert FirstAbove(caps, c, a);
    }
  }

  /**
   * Adding a version keeps every pair acceptable exactly when it passes against its two neighbours.
   * Saving checks the lower one only, so the guarantee holds when nothing newer is saved already.
   */
  lemma SavedStaysCoherent(caps: set<Capability>, c: Capability)
    requires Coherent(caps) && NewVersion(caps, c)
    requires forall a, b :: a in caps && b in caps && a.version == b.version ==> a == b
    ensures Coherent(caps + {c}) <==>
      (forall a :: LatestBelow(caps, c, a) ==> Passes(a, c)) && (forall a :: FirstAbove(caps, c, a) ==> Passes(c, a))
  {
    hide Passes;
    if (forall a :: LatestBelow(caps, c, a) ==> Passes(a, c)) && (forall a :: FirstAbove(caps, c, a) ==> Passes(c, a)) {
      forall x | Below(caps, c, x) ensures Passes(x, c) {
        LatestExists(caps, c, x);
        var a :| LatestBelow(caps, c, a);
        if x != a { PassesComposes(x, a, c); }
      }
      forall x | Above(caps, c, x) ensures Passes(c, x) {
        FirstExists(caps, c, x);
        var a :| FirstAbove(caps, c, a);
        if x != a { PassesComposes(c, a, x); }
      }
      forall a, b | a in caps + {c} && b in caps + {c} && Before(a.version, b.version) ensures Passes(a, b) {
        if b == c { assert Below(caps, c, a); } else if a == c { assert Above(caps, c, b); }
      }
    } else {
      if a :| LatestBelow(caps, c, a) && !Passes(a, c) {
        assert a in caps + {c} && c in caps + {c};
      } else {
        var a :| FirstAbove(caps, c, a) && !Passes(c, a);
        assert a in caps + {c} && c in caps + {c};
      }
    }
  }

  function Plain(v: Version, inputs: seq<InputParam>): Capability {
    Capability("app.entity.verb", v, "policy", Web, inputs, [], [], [],
      if inputs == [] then map[] else map["inputs" := Null])
  }

  /** Saved between two versions, a version can pass its check and still break the one above it. */
  lemma SavingBetweenCanBreak()
    ensures var a := Plain(Version(1, 0, 0), []);
            var b := Plain(Version(1, 1, 0), [InputParam("note", StringParam, false, None, None, false)]);
            var c := Plain(Version(1, 2, 0), []);
            Passes(a, c) && Passes(a, b) && !Passes(b, c) && b.version.major == c.version.major
  {
    var p := InputParam("note", StringParam, false, None, None, false);
    assert [p][..0] == [];
    assert Inputs([p]) == map["note" := p];
    assert "note" in Inputs([p]) && "note" !in Inputs([]);
  }
}
