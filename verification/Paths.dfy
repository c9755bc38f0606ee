/** Normal forms of URL paths: the stack loop, its recursive reading, and the procedure of RFC 3986. */
module Paths {
  import opened Vocab

  // ---- segments ------------------------------------------------------------------------------------

  predicate Slashless(s: string) {
    '/' !in s
  }

  function Split(s: string): (segs: seq<string>)
    ensures segs != []
  {
    if s == [] then [[]]
    else
      var rest := Split(s[1..]);
      if s[0] == '/' then [[]] + rest else [[s[0]] + rest[0]] + rest[1..]
  }

  /** Every segment after a slash. */
  function Slashed(segs: seq<string>): string {
    if segs == [] then [] else Slashed(segs[..|segs| - 1]) + ['/'] + segs[|segs| - 1]
  }

  lemma {:induction false} SplitIsSlashless(s: string)
    ensures forall i :: 0 <= i < |Split(s)| ==> Slashless(Split(s)[i])
  {
    if s != [] { SplitIsSlashless(s[1..]); }
  }

  lemma {:induction false} SplitOne(s: string)
    requires Slashless(s)
    ensures Split(s) == [s]
  {
    if s != [] {
      SplitOne(s[1..]);
      assert [s[0]] + s[1..] == s;
    }
  }

  lemma {:induction false} SplitAtSlash(s: string, t: string)
    requires Slashless(s)
    ensures Split(s + ['/'] + t) == [s] + Split(t)
  {
    var whole := s + ['/'] + t;
    if s == [] {
      assert whole[1..] == t;
    } else {
      SplitAtSlash(s[1..], t);
      assert whole[1..] == s[1..] + ['/'] + t;
      assert [s[0]] + s[1..] == s;
    }
  }

  lemma {:induction false} SlashedFromFront(segs: seq<string>)
    requires segs != []
    ensures Slashed(segs) == ['/'] + segs[0] + Slashed(segs[1..])
  {
    if |segs| > 1 {
      SlashedFromFront(segs[..|segs| - 1]);
      assert segs[..|segs| - 1][1..] == segs[1..][..|segs| - 2];
      assert segs[..|segs| - 1][0] == segs[0];
    } else {
      assert segs[..0] == [] && segs[1..] == [];
    }
  }

  /** A path is its first segment and the others, each after a slash. */
  lemma {:induction false} SplitJoins(s: string)
    ensures s == Split(s)[0] + Slashed(Split(s)[1..])
  {
    if s != [] {
      SplitJoins(s[1..]);
      var rest := Split(s[1..]);
      if s[0] == '/' {
        SlashedFromFront(rest);
        assert Split(s)[1..] == rest;
      } else {
        assert Split(s)[1..] == rest[1..];
      }
      assert s == [s[0]] + s[1..];
    }
  }

  lemma {:induction false} SplitSlashed(first: string, segs: seq<string>)
    requires Slashless(first) && forall i :: 0 <= i < |segs| ==> Slashless(segs[i])
    ensures Split(first + Slashed(segs)) == [first] + segs
    decreases |segs|
  {
    if segs == [] {
      SplitOne(first);
      assert first + [] == first && [first] + segs == [first];
    } else {
      SlashedFromFront(segs);
      SplitSlashed(segs[0], segs[1..]);
      SplitAtSlash(first, segs[0] + Slashed(segs[1..]));
      assert first + Slashed(segs) == first + ['/'] + (segs[0] + Slashed(segs[1..]));
      assert segs == [segs[0]] + segs[1..];
    }
  }

  // ---- the walk over the segments ------------------------------------------------------------------

  predicate Dot(s: string) {
    s == ['.']
  }

  predicate DotDot(s: string) {
    s == ['.', '.']
  }

  /** A segment that names something. */
  predicate Ordinary(s: string) {
    s != [] && !Dot(s) && !DotDot(s)
  }

  function Pop(stack: seq<string>): seq<string> {
    if stack == [] then [] else stack[..|stack| - 1]
  }

  function Pushed(stack: seq<string>, s: string): seq<string> {
    if DotDot(s) then Pop(stack) else if Ordinary(s) then stack + [s] else stack
  }

  function Resolve(segs: seq<string>, stack: seq<string>): seq<string>
    decreases |segs|
  {
    if segs == [] then stack else Resolve(segs[1..], Pushed(stack, segs[0]))
  }

  predicate EndsWith(s: string, suffix: string) {
    |s| >= |suffix| && s[|s| - |suffix|..] == suffix
  }

  predicate EndsAsDirectory(s: string) {
    EndsWith(s, ['/']) || EndsWith(s, ['/', '.']) || EndsWith(s, ['/', '.', '.'])
  }

  function Written(stack: seq<string>, trailing: bool): string {
    if stack == [] then ['/'] else Slashed(stack) + if trailing then ['/'] else []
  }

  /** What becomes of a decoded path that is not refused. */
  function Normal(decoded: string): string {
    Written(Resolve(Split(decoded), []), EndsAsDirectory(decoded))
  }

  predicate IsHex(c: char) {
    '0' <= c <= '9' || 'A' <= c <= 'F' || 'a' <= c <= 'f'
  }

  predicate EncodedAt(s: string, i: nat) {
    i + 2 < |s| && s[i] == '%' && IsHex(s[i + 1]) && IsHex(s[i + 2])
  }

  predicate HasEncodedByte(s: string) {
    exists i: nat :: i < |s| && EncodedAt(s, i)
  }

  predicate Forbidden(c: char) {
    c == '\\' || c == ';' || c < ' ' || c == 0x7f as char
  }

  predicate HasForbidden(s: string) {
    exists i :: 0 <= i < |s| && Forbidden(s[i])
  }

  /** A decoded path no server could read two ways. */
  predicate Unambiguous(s: string) {
    !HasEncodedByte(s) && !HasForbidden(s)
  }

  /** decode is percent-decoding; an empty path is the root. None is a refusal. */
  function NormalizePath(raw: string, decode: string -> string): Option<string> {
    var decoded := decode(if raw == [] then ['/'] else raw);
    if Unambiguous(decoded) then Some(Normal(decoded)) else None
  }

  method Normalize(raw: string, decode: string -> string) returns (r: Option<string>)
    ensures r == NormalizePath(raw, decode)
  {
    hide Written;
    var decoded := decode(if raw == [] then ['/'] else raw);
    if HasEncodedByte(decoded) {
      return None;
    }
    if HasForbidden(decoded) {
      return None;
    }
    var segments: seq<string> := [];
    var parts := Split(decoded);
    for i := 0 to |parts|
      invariant Resolve(parts, []) == Resolve(parts[i..], segments)
    {
      var segment := parts[i];
      assert parts[i..][1..] == parts[i + 1..] && parts[i..][0] == segment;
      if segment == [] || segment == ['.'] {
        continue;
      }
      if segment == ['.', '.'] {
        if segments != [] {
          segments := segments[..|segments| - 1];
        }
        continue;
      }
      segments := segments + [segment];
    }
    assert parts[|parts|..] == [];
    var trailing := segments != [] && EndsAsDirectory(decoded);
    r := Some(Written(segments, trailing));
    WrittenIgnoresTrailing(segments, trailing, EndsAsDirectory(decoded));
  }

  lemma WrittenIgnoresTrailing(stack: seq<string>, a: bool, b: bool)
    requires stack != [] ==> a == b
    ensures Written(stack, a) == Written(stack, b)
  {
  }

  // ---- what comes out ------------------------------------------------------------------------------

  lemma {:induction false} ResolvedAreOrdinary(segs: seq<string>, stack: seq<string>)
    requires forall i :: 0 <= i < |segs| ==> Slashless(segs[i])
    requires forall i :: 0 <= i < |stack| ==> Ordinary(stack[i]) && Slashless(stack[i])
    ensures forall i :: 0 <= i < |Resolve(segs, stack)| ==>
      Ordinary(Resolve(segs, stack)[i]) && Slashless(Resolve(segs, stack)[i])
    decreases |segs|
  {
    if segs != [] { ResolvedAreOrdinary(segs[1..], Pushed(stack, segs[0])); }
  }

  lemma {:induction false} ResolveKeepsOrdinary(segs: seq<string>, stack: seq<string>)
    requires forall i :: 0 <= i < |segs| ==> Ordinary(segs[i])
    ensures Resolve(segs, stack) == stack + segs
    decreases |segs|
  {
    if segs == [] {
      assert stack + [] == stack;
    } else {
      ResolveKeepsOrdinary(segs[1..], stack + [segs[0]]);
      assert stack + [segs[0]] + segs[1..] == stack + segs;
    }
  }

  /** Absolute, with no empty, "." or ".." segment; only the last may be empty, for a trailing slash. */
  ghost predicate Canonical(path: string) {
    var segs := Split(path);
    && |segs| >= 2 && segs[0] == []
    && (forall i :: 1 <= i < |segs| - 1 ==> Ordinary(segs[i]))
    && (segs[|segs| - 1] == [] || Ordinary(segs[|segs| - 1]))
  }

  lemma SplitWritten(stack: seq<string>, trailing: bool)
    requires forall i :: 0 <= i < |stack| ==> Slashless(stack[i])
    ensures Split(Written(stack, trailing)) ==
      [[]] + stack + if stack == [] || trailing then [[]] else []
  {
    if stack == [] {
      SplitAtSlash([], []);
      assert [] + ['/'] + [] == ['/'];
    } else if trailing {
      var all := stack + [[]];
      SplitSlashed([], all);
      assert all[..|all| - 1] == stack;
      assert Slashed(all) == Slashed(stack) + ['/'] + [];
      assert [] + Slashed(all) == Written(stack, true);
      assert [[]] + all == [[]] + stack + [[]];
    } else {
      SplitSlashed([], stack);
      assert [] + Slashed(stack) == Written(stack, false);
      assert [[]] + stack == [[]] + stack + [];
    }
  }

  lemma NormalIsCanonical(decoded: string)
    ensures Canonical(Normal(decoded))
  {
    var stack := Resolve(Split(decoded), []);
    SplitIsSlashless(decoded);
    ResolvedAreOrdinary(Split(decoded), []);
    SplitWritten(stack, EndsAsDirectory(decoded));
  }

  /** What follows the last slash of a text is determined by the text. */
  lemma {:induction false} SameTail(x: string, last: string, y: string, w: string)
    requires Slashless(last) && Slashless(w) && x + ['/'] + last == y + ['/'] + w
    ensures last == w
    decreases |last|
  {
    var s, t := x + ['/'] + last, y + ['/'] + w;
    var n := |s| - 1;
    assert s[n] == t[n];
    if last != [] && w != [] {
      assert s[..n] == x + ['/'] + last[..|last| - 1];
      assert t[..n] == y + ['/'] + w[..|w| - 1];
      SameTail(x, last[..|last| - 1], y, w[..|w| - 1]);
    }
  }

  lemma EndsWithSegment(x: string, last: string, w: string)
    requires Slashless(last) && Slashless(w)
    ensures EndsWith(x + ['/'] + last, ['/'] + w) <==> last == w
  {
    hide Slashless;
    var s, suffix := x + ['/'] + last, ['/'] + w;
    if EndsWith(s, suffix) {
      var y := s[..|s| - |suffix|];
      assert s == y + suffix && y + suffix == y + ['/'] + w;
      SameTail(x, last, y, w);
    }
    if last == w { assert s[|x|..] == suffix; }
  }

  lemma SlashedEnds(segs: seq<string>)
    ensures segs == [] ==> Slashed(segs) == []
    ensures segs != [] ==> Slashed(segs) == Slashed(segs[..|segs| - 1]) + ['/'] + segs[|segs| - 1]
  {
  }

  lemma LastSegment(first: string, segs: seq<string>)
    requires segs != []
    ensures first + Slashed(segs) == first + Slashed(segs[..|segs| - 1]) + ['/'] + segs[|segs| - 1]
  {
    hide Slashed;
    SlashedEnds(segs);
    var front, last := Slashed(segs[..|segs| - 1]), segs[|segs| - 1];
    assert first + (front + ['/'] + last) == first + front + ['/'] + last;
  }

  /** Ending as a directory is a matter of the last segment of a path with a slash. */
  lemma DirectoryByLastSegment(first: string, segs: seq<string>)
    requires segs != [] && Slashless(segs[|segs| - 1])
    ensures EndsAsDirectory(first + Slashed(segs)) <==> !Ordinary(segs[|segs| - 1])
  {
    hide EndsWith, Slashed;
    var x, last := first + Slashed(segs[..|segs| - 1]), segs[|segs| - 1];
    LastSegment(first, segs);
    EndsWithSegment(x, last, []);
    EndsWithSegment(x, last, ['.']);
    EndsWithSegment(x, last, ['.', '.']);
    assert ['/'] + [] == ['/'] && ['/'] + ['.'] == ['/', '.'] && ['/'] + ['.', '.'] == ['/', '.', '.'];
  }

  lemma ResolveSplits(a: seq<string>, b: seq<string>, stack: seq<string>)
    ensures Resolve(a + b, stack) == Resolve(b, Resolve(a, stack))
    decreases |a|
  {
    hide Pushed;
    if a == [] {
      assert a + b == b;
    } else {
      ResolveSplits(a[1..], b, Pushed(stack, a[0]));
      assert (a + b)[0] == a[0] && (a + b)[1..] == a[1..] + b;
    }
  }

  /** Writing a stack and resolving it again gives the stack back, and the slash stays if there was one. */
  lemma WrittenIsFixed(stack: seq<string>, trailing: bool)
    requires forall i :: 0 <= i < |stack| ==> Ordinary(stack[i]) && Slashless(stack[i])
    ensures Normal(Written(stack, trailing)) == Written(stack, trailing)
  {
    hide Slashed, Split, EndsAsDirectory;
    var path := Written(stack, trailing);
    var tail := if stack == [] || trailing then [[]] else [];
    SplitWritten(stack, trailing);
    ResolveSplits([[]] + stack, tail, []);
    ResolveSplits([[]], stack, []);
    var root: seq<string> := [[]];
    assert Resolve(root, []) == [] by { assert root[1..] == []; }
    ResolveKeepsOrdinary(stack, []);
    assert [] + stack == stack;
    assert Resolve(tail, stack) == stack by { assert tail != [] ==> tail[1..] == []; }
    if stack != [] {
      var all := stack + tail;
      assert [] + Slashed(all) == path by { WrittenAsSegments(stack, trailing); }
      DirectoryByLastSegment([], all);
    }
  }

  lemma WrittenAsSegments(stack: seq<string>, trailing: bool)
    requires stack != []
    ensures Written(stack, trailing) == Slashed(stack + if trailing then [[]] else [])
  {
    if trailing {
      assert (stack + [[]])[..|stack|] == stack;
      assert Slashed(stack + [[]]) == Slashed(stack) + ['/'] + [];
    } else {
      assert stack + [] == stack;
    }
  }

  // ---- what is accepted stays accepted -------------------------------------------------------------

  lemma EncodedBeside(a: string, b: string)
    ensures HasEncodedByte(a + ['/'] + b) <==> HasEncodedByte(a) || HasEncodedByte(b)
  {
    var s := a + ['/'] + b;
    if HasEncodedByte(s) {
      var i: nat :| i < |s| && EncodedAt(s, i);
      if i < |a| {
        assert s[|a|] == '/' && i + 2 < |a|;
        assert EncodedAt(a, i);
      } else {
        assert i > |a|;
        assert EncodedAt(b, i - |a| - 1);
      }
    }
    if HasEncodedByte(a) {
      var i: nat :| i < |a| && EncodedAt(a, i);
      assert EncodedAt(s, i);
    }
    if HasEncodedByte(b) {
      var i: nat :| i < |b| && EncodedAt(b, i);
      assert EncodedAt(s, i + |a| + 1);
    }
  }

  lemma ForbiddenBeside(a: string, b: string)
    ensures HasForbidden(a + ['/'] + b) <==> HasForbidden(a) || HasForbidden(b)
  {
    var s := a + ['/'] + b;
    if i :| 0 <= i < |a| && Forbidden(a[i]) { assert s[i] == a[i]; }
    if i :| 0 <= i < |b| && Forbidden(b[i]) { assert s[i + |a| + 1] == b[i]; }
  }

  lemma {:induction false} UnambiguousSegments(first: string, segs: seq<string>)
    ensures Unambiguous(first + Slashed(segs)) <==>
      Unambiguous(first) && forall i :: 0 <= i < |segs| ==> Unambiguous(segs[i])
    decreases |segs|
  {
    hide HasEncodedByte, HasForbidden;
    if segs == [] {
      assert first + [] == first;
    } else {
      var n := |segs| - 1;
      UnambiguousSegments(first, segs[..n]);
      EncodedBeside(first + Slashed(segs[..n]), segs[n]);
      ForbiddenBeside(first + Slashed(segs[..n]), segs[n]);
      assert first + Slashed(segs) == (first + Slashed(segs[..n])) + ['/'] + segs[n];
    }
  }

  lemma {:induction false} ResolvedComeFrom(segs: seq<string>, stack: seq<string>)
    ensures forall s :: s in Resolve(segs, stack) ==> s in segs || s in stack
    decreases |segs|
  {
    if segs != [] { ResolvedComeFrom(segs[1..], Pushed(stack, segs[0])); }
  }

  lemma NormalIsUnambiguous(decoded: string)
    requires Unambiguous(decoded)
    ensures Unambiguous(Normal(decoded))
  {
    hide Unambiguous, Resolve, Split, EndsAsDirectory;
    var segs := Split(decoded);
    var stack := Resolve(segs, []);
    SplitJoins(decoded);
    UnambiguousSegments(segs[0], segs[1..]);
    ResolvedComeFrom(segs, []);
    assert forall s :: s in segs ==> Unambiguous(s) by { assert segs == [segs[0]] + segs[1..]; }
    EmptyIsUnambiguous();
    UnambiguousSegments([], stack);
    UnambiguousSegments([], stack + [[]]);
    if stack != [] {
      WrittenAsSegments(stack, EndsAsDirectory(decoded));
      assert stack + [] == stack;
      assert [] + Slashed(stack) == Slashed(stack) && [] + Slashed(stack + [[]]) == Slashed(stack + [[]]);
    }
  }

  lemma EmptyIsUnambiguous()
    ensures Unambiguous([]) && Unambiguous(['/'])
  {
  }

  /**
   * An accepted path normalizes to itself, whatever the decoder does to encoded bytes, as long as it
   * leaves text without any alone.
   */
  lemma NormalizeIdempotent(raw: string, decode: string -> string)
    requires forall s :: !HasEncodedByte(s) ==> decode(s) == s
    requires NormalizePath(raw, decode).Some?
    ensures var path := NormalizePath(raw, decode).value;
            Canonical(path) && NormalizePath(path, decode) == Some(path)
  {
    hide Normal, Split, HasEncodedByte, HasForbidden, Canonical;
    var decoded := decode(if raw == [] then ['/'] else raw);
    var path := Normal(decoded);
    NormalIsCanonical(decoded);
    NormalIsUnambiguous(decoded);
    NormalIsFixed(decoded);
  }

  lemma NormalIsFixed(decoded: string)
    ensures Normal(Normal(decoded)) == Normal(decoded) && Normal(decoded) != []
  {
    hide Split, Resolve, EndsAsDirectory, Slashless, Ordinary;
    SplitIsSlashless(decoded);
    ResolvedAreOrdinary(Split(decoded), []);
    WrittenIsFixed(Resolve(Split(decoded), []), EndsAsDirectory(decoded));
  }

  // ---- RFC 3986, section 5.2.4 ---------------------------------------------------------------------

  /** The buffer without its last segment and the slash before it, if any. */
  function DropSegment(output: string): string {
    if output == [] then []
    else
      var n := |output| - 1;
      if output[n] == '/' then output[..n] else DropSegment(output[..n])
  }

  /** How far the first segment of a non-empty buffer reaches, its leading slash included. */
  function SegmentEnd(input: string, i: nat): (n: nat)
    requires 0 < i <= |input|
    ensures i <= n <= |input|
    ensures forall j :: i <= j < n ==> input[j] != '/'
    ensures n < |input| ==> input[n] == '/'
    decreases |input| - i
  {
    if i == |input| || input[i] == '/' then i else SegmentEnd(input, i + 1)
  }

  /** The five rules, in the order of the standard: 2A, 2B, 2C, 2D and 2E. */
  function RemoveDotSegments(input: string, output: string): string
    decreases |input|
  {
    if input == [] then output
    else if ['.', '.', '/'] <= input then RemoveDotSegments(input[3..], output)
    else if ['.', '/'] <= input then RemoveDotSegments(input[2..], output)
    else if ['/', '.', '/'] <= input then RemoveDotSegments(input[2..], output)
    else if input == ['/', '.'] then RemoveDotSegments(['/'], output)
    else if ['/', '.', '.', '/'] <= input then RemoveDotSegments(input[3..], DropSegment(output))
    else if input == ['/', '.', '.'] then RemoveDotSegments(['/'], DropSegment(output))
    else if input == ['.'] || input == ['.', '.'] then output
    else
      var n := SegmentEnd(input, 1);
      RemoveDotSegments(input[n..], output + input[..n])
  }

  lemma {:induction false} DropSegmentPops(x: string, seg: string)
    requires Slashless(seg)
    ensures DropSegment(x + ['/'] + seg) == x
  {
    var s := x + ['/'] + seg;
    if seg == [] {
      assert s[..|s| - 1] == x;
    } else {
      DropSegmentPops(x, seg[..|seg| - 1]);
      assert s[..|s| - 1] == x + ['/'] + seg[..|seg| - 1];
      assert s[|s| - 1] == seg[|seg| - 1];
    }
  }

  lemma DropSegmentOfStack(stack: seq<string>)
    requires forall i :: 0 <= i < |stack| ==> Slashless(stack[i])
    ensures DropSegment(Slashed(stack)) == Slashed(Pop(stack))
  {
    if stack != [] { DropSegmentPops(Slashed(stack[..|stack| - 1]), stack[|stack| - 1]); }
  }

  lemma LastSlash(output: string)
    ensures RemoveDotSegments(['/'], output) == output + ['/']
  {
    assert SegmentEnd(['/'], 1) == 1;
    assert ['/'][..1] == ['/'] && ['/'][1..] == [];
  }

  lemma StepOverDot(rest: string, output: string)
    requires rest == [] || rest[0] == '/'
    ensures RemoveDotSegments(['/', '.'] + rest, output) ==
      if rest == [] then output + ['/'] else RemoveDotSegments(rest, output)
  {
    var input := ['/', '.'] + rest;
    if rest == [] {
      assert input == ['/', '.'] && input[0] == '/' && |input| == 2;
      assert !(['.', '.', '/'] <= input) && !(['.', '/'] <= input) && !(['/', '.', '/'] <= input);
      LastSlash(output);
    } else {
      assert input[2..] == rest;
      assert input[0] == '/' && input[..3] == ['/', '.', '/'];
    }
  }

  lemma StepOverDotDot(rest: string, output: string)
    requires rest == [] || rest[0] == '/'
    ensures RemoveDotSegments(['/', '.', '.'] + rest, output) ==
      if rest == [] then DropSegment(output) + ['/'] else RemoveDotSegments(rest, DropSegment(output))
  {
    hide DropSegment;
    var input := ['/', '.', '.'] + rest;
    assert input[0] == '/' && input[2] == '.';
    if rest == [] {
      assert input == ['/', '.', '.'];
      LastSlash(DropSegment(output));
    } else {
      assert input[3..] == rest;
      assert input[..4] == ['/', '.', '.', '/'];
    }
  }

  lemma StepOverDots(seg: string, rest: string, output: string)
    requires Dot(seg) || DotDot(seg)
    requires rest == [] || rest[0] == '/'
    ensures RemoveDotSegments(['/'] + seg + rest, output) ==
      var kept := if Dot(seg) then output else DropSegment(output);
      if rest == [] then kept + ['/'] else RemoveDotSegments(rest, kept)
  {
    hide RemoveDotSegments, DropSegment;
    if Dot(seg) {
      StepOverDot(rest, output);
      assert ['/'] + seg == ['/', '.'];
    } else {
      StepOverDotDot(rest, output);
      assert ['/'] + seg == ['/', '.', '.'];
    }
  }

  lemma StepOverSegment(seg: string, rest: string, output: string)
    requires Slashless(seg) && Ordinary(seg)
    requires rest == [] || rest[0] == '/'
    ensures RemoveDotSegments(['/'] + seg + rest, output) == RemoveDotSegments(rest, output + ['/'] + seg)
  {
    var input := ['/'] + seg + rest;
    NoDotsAhead(seg, rest);
    var n := SegmentEnd(input, 1);
    assert forall j :: 0 <= j < |seg| ==> input[j + 1] == seg[j] && seg[j] != '/';
    assert rest != [] ==> input[1 + |seg|] == '/';
    assert n == 1 + |seg|;
    assert input[..n] == ['/'] + seg && input[n..] == rest;
    assert output + (['/'] + seg) == output + ['/'] + seg;
  }

  lemma NoDotsAhead(seg: string, rest: string)
    requires Slashless(seg) && Ordinary(seg)
    requires rest == [] || rest[0] == '/'
    ensures var input := ['/'] + seg + rest;
      && !(['/', '.', '/'] <= input) && input != ['/', '.']
      && !(['/', '.', '.', '/'] <= input) && input != ['/', '.', '.']
  {
    var input := ['/'] + seg + rest;
    assert input[1] == seg[0];
    if |seg| >= 2 { assert input[2] == seg[1]; }
    if |seg| >= 3 { assert input[3] == seg[2]; }
    if |seg| == 1 { assert seg == [seg[0]]; }
    if |seg| == 2 { assert seg == [seg[0], seg[1]]; }
  }

  /** What section 5.2.4 makes of the segments left, given the stack its output buffer holds. */
  function Finished(segs: seq<string>, stack: seq<string>): string
    requires segs != []
  {
    Slashed(Resolve(segs, stack)) + if Ordinary(segs[|segs| - 1]) then [] else ['/']
  }

  lemma BufferStep(segs: seq<string>, stack: seq<string>)
    requires segs != [] && Slashless(segs[0]) && (|segs| > 1 ==> segs[0] != [])
    requires forall i :: 0 <= i < |stack| ==> Slashless(stack[i])
    ensures RemoveDotSegments(Slashed(segs), Slashed(stack)) ==
      var next := Slashed(Pushed(stack, segs[0]));
      if |segs| > 1 then RemoveDotSegments(Slashed(segs[1..]), next)
      else next + if Ordinary(segs[0]) then [] else ['/']
  {
    hide RemoveDotSegments, DropSegment, Slashless, Slashed;
    SlashedEnds(segs[1..]);
    var seg, rest, output := segs[0], Slashed(segs[1..]), Slashed(stack);
    SlashedFromFront(segs);
    if |segs| > 1 { SlashedFromFront(segs[1..]); }
    if seg == [] {
      assert ['/'] + seg + rest == ['/'];
      LastSlash(output);
    } else if Ordinary(seg) {
      StepOverSegment(seg, rest, output);
      PushedIsWritten(stack, seg);
      EmptyInput(Slashed(stack + [seg]));
    } else {
      StepOverDots(seg, rest, output);
      DropSegmentOfStack(stack);
    }
  }

  lemma PushedIsWritten(stack: seq<string>, seg: string)
    ensures Slashed(stack + [seg]) == Slashed(stack) + ['/'] + seg
  {
    assert (stack + [seg])[..|stack|] == stack;
  }

  lemma {:induction false} BuffersFollowStack(segs: seq<string>, stack: seq<string>)
    requires segs != [] && forall i :: 0 <= i < |segs| ==> Slashless(segs[i])
    requires forall i :: 0 <= i < |segs| - 1 ==> segs[i] != []
    requires forall i :: 0 <= i < |stack| ==> Slashless(stack[i])
    ensures RemoveDotSegments(Slashed(segs), Slashed(stack)) == Finished(segs, stack)
    decreases |segs|
  {
    hide RemoveDotSegments, Slashless, Slashed, Ordinary;
    BufferStep(segs, stack);
    assert Resolve(segs, stack) == Resolve(segs[1..], Pushed(stack, segs[0]));
    if |segs| > 1 {
      BuffersFollowStack(segs[1..], Pushed(stack, segs[0]));
      assert segs[1..][|segs| - 2] == segs[|segs| - 1];
    } else {
      assert segs[1..] == [];
    }
  }

  lemma EmptyInput(output: string)
    ensures RemoveDotSegments([], output) == output
  {
  }

  /** Starts with a slash and never has two in a row. */
  ghost predicate AbsoluteWithoutDoubles(s: string) {
    s != [] && s[0] == '/' && forall i :: 0 <= i < |s| - 1 ==> s[i] != '/' || s[i + 1] != '/'
  }

  lemma {:induction false} SegmentsAreNamed(s: string)
    requires forall i :: 0 <= i < |s| - 1 ==> s[i] != '/' || s[i + 1] != '/'
    ensures forall i :: 1 <= i < |Split(s)| - 1 ==> Split(s)[i] != []
    ensures s != [] && s[0] != '/' ==> Split(s)[0] != []
    ensures s != [] && s[0] == '/' ==> Split(s)[0] == [] && |Split(s)| > 1
  {
    if s != [] { SegmentsAreNamed(s[1..]); }
  }

  /** On a decoded absolute path without "//", the segment loop is the standard's remove_dot_segments. */
  lemma NormalIsRemoveDotSegments(decoded: string)
    requires AbsoluteWithoutDoubles(decoded)
    ensures Normal(decoded) == RemoveDotSegments(decoded, [])
  {
    hide Split, EndsAsDirectory, RemoveDotSegments, Resolve, Slashless;
    var all := Split(decoded);
    SplitJoins(decoded);
    SplitIsSlashless(decoded);
    SegmentsAreNamed(decoded);
    var segs := all[1..];
    assert [] + Slashed(segs) == decoded == Slashed(segs);
    BuffersFollowStack(segs, []);
    DirectoryByLastSegment([], segs);
    assert Resolve(all, []) == Resolve(segs, []) by { FirstEmptyIsSkipped(all); }
    if Resolve(segs, []) == [] { LastIsOrdinaryOrStackFull(segs, []); }
  }

  lemma FirstEmptyIsSkipped(segs: seq<string>)
    requires segs != [] && segs[0] == []
    ensures Resolve(segs, []) == Resolve(segs[1..], [])
  {
  }

  lemma {:induction false} LastIsOrdinaryOrStackFull(segs: seq<string>, stack: seq<string>)
    requires segs != []
    ensures Ordinary(segs[|segs| - 1]) ==> Resolve(segs, stack) != []
    decreases |segs|
  {
    if |segs| > 1 { LastIsOrdinaryOrStackFull(segs[1..], Pushed(stack, segs[0])); }
  }
}
