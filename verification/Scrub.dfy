/** The redactor: secret values in every encoding it knows, replaced longest form first. */
module Scrub {
  import Base64

  const MIN_SECRET_LEN := 4
  const SUBSTRING_MIN_LEN := 6

  function Word(): (w: string)
    ensures |w| == 8 && '[' !in w && ']' !in w
  {
    "REDACTED"
  }

  /** What every secret becomes. */
  function Mark(): (m: string)
    ensures |m| == 10 && m == ['['] + Word() + [']']
  {
    ['['] + Word() + [']']
  }

  predicate At(s: string, f: string, i: nat) {
    i + |f| <= |s| && s[i..i + |f|] == f
  }

  ghost predicate Contains(s: string, f: string) {
    exists i: nat :: At(s, f, i)
  }

  /** Every occurrence of f replaced, from the left, without overlap. */
  function Replace(s: string, f: string): string
    requires f != []
  {
    if |s| < |f| then s
    else if f <= s then Mark() + Replace(s[|f|..], f)
    else [s[0]] + Replace(s[1..], f)
  }

  predicate NoneEmpty(forms: seq<string>) {
    forall i :: 0 <= i < |forms| ==> forms[i] != []
  }

  function ScrubAll(s: string, forms: seq<string>): string
    requires NoneEmpty(forms)
    decreases |forms|
  {
    if forms == [] then s else ScrubAll(Replace(s, forms[0]), forms[1..])
  }

  // ---- when a form can meet the mark ---------------------------------------------------------------

  /** Laid k characters after the start of the mark, the form agrees with it wherever they overlap. */
  predicate Agrees(g: string, k: int) {
    forall j :: 0 <= j < |g| && 0 <= j + k < |Mark()| ==> g[j] == Mark()[j + k]
  }

  /** Some text could hold the form and the mark overlapping. */
  predicate Collides(g: string) {
    exists k :: -|g| < k < |Mark()| && Agrees(g, k)
  }

  predicate BracketFree(g: string) {
    '[' !in g && ']' !in g
  }

  lemma InSlice(s: string, f: string, i: nat, j: nat)
    requires At(s, f, i) && j < |f|
    ensures s[i + j] == f[j]
  {
    assert s[i..i + |f|][j] == f[j];
  }

  /** An occurrence in a text with a mark in it lies before the mark, after it, or collides. */
  lemma OccursBesideMark(pre: string, t: string, g: string, i: nat)
    requires At(pre + Mark() + t, g, i) && g != [] && !Collides(g)
    ensures At(pre, g, i) || (i >= |pre| + |Mark()| && At(t, g, i - |pre| - |Mark()|))
  {
    hide Mark, Collides;
    var s := pre + Mark() + t;
    if i + |g| <= |pre| {
      assert s[i..i + |g|] == pre[i..i + |g|];
    } else if i >= |pre| + |Mark()| {
      var d := i - |pre| - |Mark()|;
      assert s[i..i + |g|] == t[d..d + |g|];
    } else {
      var k := i - |pre|;
      hide At;
      forall j | 0 <= j < |g| && 0 <= j + k < |Mark()| ensures g[j] == Mark()[j + k] {
        InSlice(s, g, i, j);
      }
      CollidesAt(g, k);
    }
  }

  lemma CollidesAt(g: string, k: int)
    requires -|g| < k < |Mark()| && Agrees(g, k)
    ensures Collides(g)
  {
  }

  lemma AgreesAt(g: string, k: int, j: nat)
    requires Agrees(g, k) && j < |g| && 0 <= j + k < |Mark()|
    ensures g[j] == Mark()[j + k]
  {
  }

  /** Agreeing with either end of the mark takes a bracket. */
  lemma EdgeOfMark(g: string, k: int)
    requires -|g| < k < |Mark()| && Agrees(g, k) && BracketFree(g)
    ensures 0 < k && k + |g| <= 9
  {
    hide Word, Agrees;
    if k <= 0 {
      AgreesAt(g, k, -k);
    } else if k + |g| > 9 {
      AgreesAt(g, k, 9 - k);
    }
  }

  /** A form without brackets collides exactly when it is part of the word inside the mark. */
  lemma BracketFreeCollision(g: string)
    requires g != [] && BracketFree(g)
    ensures Collides(g) <==> Contains(Word(), g)
  {
    hide Word;
    if Collides(g) {
      var k :| -|g| < k < |Mark()| && Agrees(g, k);
      EdgeOfMark(g, k);
      if 0 < k && k + |g| <= 9 {
        assert Word()[k - 1..k - 1 + |g|] == g;
        assert At(Word(), g, k - 1);
      }
    }
    if Contains(Word(), g) {
      var i: nat :| At(Word(), g, i);
      forall j | 0 <= j < |g| ensures g[j] == Mark()[j + i + 1] {
        InSlice(Word(), g, i, j);
      }
      assert Agrees(g, i + 1);
    }
  }

  lemma ReplaceSteps(s: string, f: string)
    requires f != []
    ensures |s| < |f| ==> Replace(s, f) == s
    ensures f <= s ==> Replace(s, f) == Mark() + Replace(s[|f|..], f)
    ensures |s| >= |f| && !(f <= s) ==> Replace(s, f) == [s[0]] + Replace(s[1..], f)
  {
  }

  // ---- replacing brings nothing new in and leaves none of the form ---------------------------------

  lemma ContainsWithin(pre: string, s: string, post: string, g: string)
    requires Contains(s, g)
    ensures Contains(pre + s + post, g)
  {
    var i: nat :| At(s, g, i);
    var t := pre + s + post;
    assert t[|pre| + i..|pre| + i + |g|] == s[i..i + |g|];
    assert At(t, g, |pre| + i);
  }

  /** What stands before a mark and what stands after it together hold every occurrence. */
  lemma ContainsBesideMark(pre: string, t: string, g: string)
    requires g != [] && !Collides(g) && !Contains(pre, g) && !Contains(t, g)
    ensures !Contains(pre + Mark() + t, g)
  {
    hide Mark, Collides, At;
    if Contains(pre + Mark() + t, g) {
      var i: nat :| At(pre + Mark() + t, g, i);
      OccursBesideMark(pre, t, g, i);
    }
  }

  lemma NotInParts(pre: string, s: string, n: nat, g: string)
    requires n <= |s| && !Contains(pre + s, g)
    ensures !Contains(pre, g) && !Contains([] + s[n..], g)
  {
    hide Contains;
    assert pre + s == [] + pre + s && pre + s == (pre + s[..n]) + s[n..] + [] && [] + s[n..] == s[n..];
    if Contains(pre, g) { ContainsWithin([], pre, s, g); }
    if Contains(s[n..], g) { ContainsWithin(pre + s[..n], s[n..], [], g); }
  }

  lemma {:induction false} ReplaceAddsNone(pre: string, s: string, f: string, g: string)
    requires f != [] && g != [] && !Collides(g) && !Contains(pre + s, g)
    ensures !Contains(pre + Replace(s, f), g)
    decreases |s|
  {
    hide Mark, Collides, Contains, Replace;
    ReplaceSteps(s, f);
    if f <= s {
      var rest := s[|f|..];
      NotInParts(pre, s, |f|, g);
      ReplaceAddsNone([], rest, f, g);
      assert [] + Replace(rest, f) == Replace(rest, f);
      ContainsBesideMark(pre, Replace(rest, f), g);
      assert pre + Replace(s, f) == pre + Mark() + Replace(rest, f);
    } else if |s| >= |f| {
      assert pre + s == pre + [s[0]] + s[1..];
      ReplaceAddsNone(pre + [s[0]], s[1..], f, g);
      assert pre + Replace(s, f) == pre + [s[0]] + Replace(s[1..], f);
    }
  }

  lemma NotInPrefix(pre: string, s: string, f: string)
    requires f != [] && forall i: nat :: i < |pre| ==> !At(pre + s, f, i)
    ensures !Contains(pre, f)
  {
    forall i: nat | i + |f| <= |pre| ensures !At(pre, f, i) {
      assert !At(pre + s, f, i);
      assert (pre + s)[i..i + |f|] == pre[i..i + |f|];
    }
  }

  lemma NoneBeforeNext(pre: string, s: string, f: string)
    requires f != [] && s != [] && !(f <= s)
    requires forall i: nat :: i < |pre| ==> !At(pre + s, f, i)
    ensures forall i: nat :: i < |pre + [s[0]]| ==> !At(pre + [s[0]] + s[1..], f, i)
  {
    assert pre + s == pre + [s[0]] + s[1..];
    forall i: nat | i < |pre| + 1 ensures !At(pre + s, f, i) {
      if i == |pre| && i + |f| <= |pre + s| { assert (pre + s)[i..i + |f|] == s[..|f|]; }
    }
  }

  lemma {:induction false} ReplaceRemoves(pre: string, s: string, f: string)
    requires f != [] && !Collides(f)
    requires forall i: nat :: i < |pre| ==> !At(pre + s, f, i)
    ensures !Contains(pre + Replace(s, f), f)
    decreases |s|
  {
    hide Mark, Collides, At, Replace;
    ReplaceSteps(s, f);
    if |s| < |f| {
      forall i: nat | At(pre + s, f, i) ensures false { AtNeedsRoom(pre + s, f, i); }
    } else if f <= s {
      var rest := s[|f|..];
      NotInPrefix(pre, s, f);
      ReplaceRemoves([], rest, f);
      assert [] + Replace(rest, f) == Replace(rest, f);
      ContainsBesideMark(pre, Replace(rest, f), f);
      assert pre + Replace(s, f) == pre + Mark() + Replace(rest, f);
    } else {
      NoneBeforeNext(pre, s, f);
      ReplaceRemoves(pre + [s[0]], s[1..], f);
      assert pre + Replace(s, f) == pre + [s[0]] + Replace(s[1..], f);
    }
  }

  lemma AtNeedsRoom(s: string, f: string, i: nat)
    requires At(s, f, i)
    ensures i + |f| <= |s|
  {
  }

  lemma {:induction false} ScrubAddsNone(s: string, forms: seq<string>, g: string)
    requires NoneEmpty(forms) && g != [] && !Collides(g) && !Contains(s, g)
    ensures !Contains(ScrubAll(s, forms), g)
    decreases |forms|
  {
    hide Collides, Contains, Replace;
    if forms != [] {
      assert [] + s == s && [] + Replace(s, forms[0]) == Replace(s, forms[0]);
      ReplaceAddsNone([], s, forms[0], g);
      ScrubAddsNone(Replace(s, forms[0]), forms[1..], g);
    }
  }

  /** After the loop no form occurs anywhere, whatever the text and the order of the forms. */
  lemma {:induction false} ScrubComplete(s: string, forms: seq<string>)
    requires NoneEmpty(forms) && forall i :: 0 <= i < |forms| ==> !Collides(forms[i])
    ensures forall i :: 0 <= i < |forms| ==> !Contains(ScrubAll(s, forms), forms[i])
    decreases |forms|
  {
    hide Collides, Contains, Replace;
    if forms != [] {
      var first, next := forms[0], Replace(s, forms[0]);
      assert [] + s == s && [] + next == next;
      ReplaceRemoves([], s, first);
      ScrubAddsNone(next, forms[1..], first);
      ScrubComplete(next, forms[1..]);
      assert forall i :: 1 <= i < |forms| ==> forms[i] == forms[1..][i - 1];
    }
  }

  // ---- the failing forms ---------------------------------------------------------------------------

  lemma {:induction false} ReplaceMarks(s: string, f: string)
    requires f != []
    ensures if Contains(s, f) then Contains(Replace(s, f), Mark()) else Replace(s, f) == s
    decreases |s|
  {
    hide Mark, Contains, Replace;
    ReplaceSteps(s, f);
    if |s| < |f| {
      if Contains(s, f) { ContainsNeedsRoom(s, f); }
    } else if f <= s {
      assert s == [] + f + s[|f|..];
      ContainsSelf(f);
      ContainsWithin([], f, s[|f|..], f);
      ContainsSelf(Mark());
      assert Replace(s, f) == [] + Mark() + Replace(s[|f|..], f);
      ContainsWithin([], Mark(), Replace(s[|f|..], f), Mark());
    } else {
      ReplaceMarks(s[1..], f);
      ContainsLater(s, f);
      if Contains(s[1..], f) {
        assert Replace(s, f) == [s[0]] + Replace(s[1..], f) + [];
        ContainsWithin([s[0]], Replace(s[1..], f), [], Mark());
      }
    }
  }

  lemma ContainsNeedsRoom(s: string, f: string)
    requires Contains(s, f)
    ensures |f| <= |s|
  {
  }

  lemma ContainsSelf(s: string)
    ensures Contains(s, s)
  {
    assert At(s, s, 0);
  }

  lemma AtStart(s: string, f: string)
    requires At(s, f, 0)
    ensures f <= s
  {
    assert s[..|f|] == f;
  }

  lemma AtTail(s: string, f: string, i: nat)
    requires At(s, f, i) && i > 0
    ensures At(s[1..], f, i - 1)
  {
    assert s[1..][i - 1..i - 1 + |f|] == s[i..i + |f|];
  }

  lemma ContainsLater(s: string, f: string)
    requires s != [] && f != [] && !(f <= s)
    ensures Contains(s, f) <==> Contains(s[1..], f)
  {
    if Contains(s, f) {
      var i: nat :| At(s, f, i);
      if i > 0 {
        AtTail(s, f, i);
      } else {
        AtStart(s, f);
      }
    }
    if Contains(s[1..], f) {
      assert s == [s[0]] + s[1..] + [];
      ContainsWithin([s[0]], s[1..], [], f);
    }
  }

  lemma {:induction false} ScrubKeepsMark(s: string, forms: seq<string>)
    requires NoneEmpty(forms) && Contains(s, Mark())
    ensures Contains(ScrubAll(s, forms), Mark())
    decreases |forms|
  {
    hide Contains, Replace, Mark;
    if forms != [] {
      ReplaceMarks(s, forms[0]);
      ScrubKeepsMark(Replace(s, forms[0]), forms[1..]);
    }
  }

  lemma ContainsTransitive(s: string, t: string, u: string)
    requires Contains(s, t) && Contains(t, u)
    ensures Contains(s, u)
  {
    var i: nat :| At(s, t, i);
    assert s == s[..i] + t + s[i + |t|..];
    ContainsWithin(s[..i], t, s[i + |t|..], u);
  }

  /** A form inside the mark is never scrubbed: the mark brings it back. */
  lemma FormInMarkSurvives(forms: seq<string>, i: nat)
    requires NoneEmpty(forms) && i < |forms| && Contains(Mark(), forms[i])
    ensures Contains(ScrubAll(Mark(), forms), forms[i])
  {
    hide Contains, Mark, ScrubAll;
    ContainsSelf(Mark());
    ScrubKeepsMark(Mark(), forms);
    ContainsTransitive(ScrubAll(Mark(), forms), Mark(), forms[i]);
  }

  ghost predicate LeavesNone(forms: seq<string>)
    requires NoneEmpty(forms)
  {
    forall s: string, i :: 0 <= i < |forms| ==> !Contains(ScrubAll(s, forms), forms[i])
  }

  /**
   * For forms without brackets, no text keeps any of them if and only if none is part of the word
   * that replaces them.
   */
  lemma ScrubCompleteExactly(forms: seq<string>)
    requires NoneEmpty(forms) && forall i :: 0 <= i < |forms| ==> BracketFree(forms[i])
    ensures LeavesNone(forms) <==> forall i :: 0 <= i < |forms| ==> !Contains(Word(), forms[i])
  {
    hide Contains, Collides, ScrubAll, Word, Mark;
    if i :| 0 <= i < |forms| && Contains(Word(), forms[i]) {
      assert Mark() == ['['] + Word() + [']'];
      ContainsWithin(['['], Word(), [']'], forms[i]);
      FormInMarkSurvives(forms, i);
    } else {
      forall i | 0 <= i < |forms| ensures !Collides(forms[i]) { BracketFreeCollision(forms[i]); }
      forall s: string, i | 0 <= i < |forms| ensures !Contains(ScrubAll(s, forms), forms[i]) {
        ScrubComplete(s, forms);
      }
    }
  }

  /** With a bracket in a form the word alone does not decide: "]x" survives the text "]xx". */
  lemma BracketedFormSurvives()
    ensures !Contains(Word(), [']', 'x'])
    ensures Contains(ScrubAll([']', 'x', 'x'], [[']', 'x']]), [']', 'x'])
  {
    var f := [']', 'x'];
    var s := [']', 'x', 'x'];
    if Contains(Word(), f) {
      var i: nat :| At(Word(), f, i);
      InSlice(Word(), f, i, 0);
    }
    assert f <= s && s[2..] == ['x'];
    var r := Mark() + ['x'];
    ReplaceSteps(s, f);
    ReplaceSteps(['x'], f);
    assert ScrubAll(s, [f]) == ScrubAll(r, []) by { assert [f][1..] == []; }
    assert r[9..11] == f;
    assert At(r, f, 9);
  }

  // ---- why longest first ---------------------------------------------------------------------------

  predicate LongestFirst(forms: seq<string>) {
    forall i, j :: 0 <= i < j < |forms| ==> |forms[i]| >= |forms[j]| && forms[i] != forms[j]
  }

  lemma {:induction false} ScrubLeavesAlone(s: string, forms: seq<string>)
    requires NoneEmpty(forms) && forall i :: 0 <= i < |forms| ==> !Contains(s, forms[i])
    ensures ScrubAll(s, forms) == s
    decreases |forms|
  {
    hide Contains, Replace;
    if forms != [] {
      ReplaceMarks(s, forms[0]);
      ScrubLeavesAlone(s, forms[1..]);
    }
  }

  /** A text that is one of the forms is replaced whole, not from the inside. */
  lemma {:induction false} WholeFormReplaced(forms: seq<string>, i: nat)
    requires NoneEmpty(forms) && LongestFirst(forms) && i < |forms|
    requires forall k :: 0 <= k < |forms| ==> !Contains(Mark(), forms[k])
    ensures ScrubAll(forms[i], forms) == Mark()
    decreases |forms|
  {
    hide Contains, Replace, Mark;
    var f := forms[i];
    if i == 0 {
      ReplaceSteps(f, f);
      ReplaceSteps([], f);
      assert f[|f|..] == [] && Mark() + [] == Mark();
      ScrubLeavesAlone(Mark(), forms[1..]);
    } else {
      if Contains(f, forms[0]) { ContainsAllOf(f, forms[0]); }
      ReplaceMarks(f, forms[0]);
      WholeFormReplaced(forms[1..], i - 1);
    }
  }

  lemma ContainsAllOf(s: string, f: string)
    requires Contains(s, f) && |f| >= |s|
    ensures s == f
  {
    var i: nat :| At(s, f, i);
    assert s[i..i + |f|] == s;
  }

  lemma {:induction false} ReplaceNeverEmpties(s: string, f: string)
    requires f != [] && s != []
    ensures Replace(s, f) != []
  {
  }

  /** Scrubbing a text never leaves it empty. */
  lemma {:induction false} ScrubNeverEmpties(s: string, forms: seq<string>)
    requires NoneEmpty(forms) && s != []
    ensures ScrubAll(s, forms) != []
    decreases |forms|
  {
    hide Replace;
    if forms != [] {
      ReplaceNeverEmpties(s, forms[0]);
      ScrubNeverEmpties(Replace(s, forms[0]), forms[1..]);
    }
  }

  // ---- whole tokens --------------------------------------------------------------------------------

  /** A text as the token pattern sees it: kept stretches with a match after each, then the rest. */
  datatype Matched = Rest(text: string) | Match(kept: string, token: string, rest: Matched)

  function Whole(m: Matched): string {
    match m
    case Rest(text) => text
    case Match(kept, token, rest) => kept + token + Whole(rest)
  }

  function Masked(m: Matched): string {
    match m
    case Rest(text) => text
    case Match(kept, _, rest) => kept + Mark() + Masked(rest)
  }

  /** Masking tokens, whatever the pattern matched, brings no form back. */
  lemma {:induction false} MaskAddsNone(m: Matched, g: string)
    requires g != [] && !Collides(g) && !Contains(Whole(m), g)
    ensures !Contains(Masked(m), g)
  {
    hide Collides, Contains, Mark;
    if m.Match? {
      var after := m.token + Whole(m.rest);
      assert Whole(m) == [] + m.kept + after && Whole(m) == (m.kept + m.token) + Whole(m.rest) + [];
      if Contains(m.kept, g) { ContainsWithin([], m.kept, after, g); }
      if Contains(Whole(m.rest), g) { ContainsWithin(m.kept + m.token, Whole(m.rest), [], g); }
      MaskAddsNone(m.rest, g);
      ContainsBesideMark(m.kept, Masked(m.rest), g);
    }
  }

  // ---- the redactor --------------------------------------------------------------------------------

  lemma LongestExists(forms: set<string>)
    requires forms != {}
    ensures exists f :: f in forms && forall g :: g in forms ==> |g| <= |f|
  {
    var f :| f in forms;
    if forms != {f} {
      assert forms == {f} + (forms - {f});
      LongestExists(forms - {f});
      var best :| best in forms - {f} && forall g :: g in forms - {f} ==> |g| <= |best|;
      var longest := if |f| >= |best| then f else best;
      assert forall g :: g in forms ==> |g| <= |longest|;
    }
  }

  method Sorted(forms: set<string>) returns (s: seq<string>)
    ensures LongestFirst(s) && forall f :: f in s <==> f in forms
  {
    s := [];
    var left := forms;
    while left != {}
      invariant LongestFirst(s)
      invariant left <= forms && forall f :: f in s <==> f in forms && f !in left
      invariant forall f, g :: f in s && g in left ==> |f| >= |g|
      decreases |left|
    {
      LongestExists(left);
      var f :| f in left && forall g :: g in left ==> |g| <= |f|;
      s, left := s + [f], left - {f};
    }
  }

  class Redactor {
    var substrings: seq<string>
    var tokens: set<string>

    ghost predicate Valid()
      reads this
    {
      NoneEmpty(substrings) && LongestFirst(substrings)
    }

    constructor ()
      ensures Valid() && substrings == [] && tokens == {}
    {
      substrings, tokens := [], {};
    }

    method Add(newTokens: set<string>, newSubstrings: set<string>)
      requires Valid()
      modifies this
      ensures Valid()
      ensures forall f :: f in substrings <==> f in old(substrings) || (f in newSubstrings && f != [])
      ensures forall t :: t in tokens <==> t in old(tokens) || (t in newTokens && t != [])
    {
      var known := set f | f in substrings;
      var added := (set f | f in newSubstrings && f != []) - known;
      assert forall f :: f in newSubstrings && f != [] ==> f in known || f in added;
      if added != {} {
        substrings := Sorted(known + added);
        assert forall i :: 0 <= i < |substrings| ==> substrings[i] in known + added;
      }
      tokens := tokens + set t | t in newTokens && t != [];
    }

    /**
     * A password or session cookie. textForms are the value and its escaped spellings, raw its bytes;
     * a short one is matched as a whole token only, but its base64 cores anywhere.
     */
    method AddCredential(value: string, textForms: set<string>, raw: seq<Base64.Byte>) returns (ok: bool)
      requires Valid()
      modifies this
      ensures Valid() && (ok <==> |value| >= MIN_SECRET_LEN)
      ensures !ok ==> substrings == old(substrings) && tokens == old(tokens)
      ensures ok ==> forall f :: f in tokens <==>
        f in old(tokens) || (|value| < SUBSTRING_MIN_LEN && f in textForms && f != [])
      ensures ok ==> forall f :: f in substrings <==>
        f in old(substrings) || (|value| >= SUBSTRING_MIN_LEN && f in textForms && f != []) || IsBase64Form(f, raw)
    {
      hide Base64.Core, Base64.UrlForm;
      if |value| < MIN_SECRET_LEN {
        return false;
      }
      var encoded := Base64.Base64Forms(raw, MIN_SECRET_LEN);
      if |value| < SUBSTRING_MIN_LEN {
        Add(textForms, encoded);
      } else {
        Add({}, textForms + encoded);
      }
      return true;
    }

    /** The substring pass of text and of bytes, then the token pass; matches is the token pattern. */
    method Scrub(data: string, matches: string -> Matched) returns (out: string)
      requires Valid() && forall t :: Whole(matches(t)) == t
      ensures out == Masked(matches(ScrubAll(data, substrings)))
      ensures (forall f :: f in substrings ==> !Collides(f)) ==> forall f :: f in substrings ==> !Contains(out, f)
    {
      hide Collides, Contains, Replace;
      out := data;
      for i := 0 to |substrings|
        invariant ScrubAll(data, substrings) == ScrubAll(out, substrings[i..])
      {
        out := Replace(out, substrings[i]);
        assert substrings[i..][1..] == substrings[i + 1..];
      }
      ghost var scrubbed := out;
      out := Masked(matches(out));
      if forall f :: f in substrings ==> !Collides(f) {
        ScrubComplete(data, substrings);
        forall f | f in substrings ensures !Contains(out, f) { MaskAddsNone(matches(scrubbed), f); }
      }
    }
  }

  ghost predicate IsBase64Form(f: string, raw: seq<Base64.Byte>) {
    exists o: nat :: o < 3 && |Base64.Core(raw, o)| >= MIN_SECRET_LEN
      && (f == Base64.Core(raw, o) || f == Base64.UrlForm(Base64.Core(raw, o)))
  }

  /**
   * Whatever surrounds a credential inside a base64 stream, and whatever surrounds the stream, the
   * stream does not come through: its core for that offset is one of the forms replaced.
   */
  lemma EncodedCredentialHidden(text: string, forms: seq<string>, p: seq<Base64.Byte>,
    raw: seq<Base64.Byte>, s: seq<Base64.Byte>)
    requires NoneEmpty(forms) && forall i :: 0 <= i < |forms| ==> !Collides(forms[i])
    requires |Base64.Core(raw, |p| % 3)| >= MIN_SECRET_LEN && forall f :: IsBase64Form(f, raw) ==> f in forms
    ensures !Contains(ScrubAll(text, forms), Base64.Encode(p + raw + s))
    ensures !Contains(ScrubAll(text, forms), Base64.UrlEncode(p + raw + s))
  {
    hide Collides, Contains, ScrubAll, Base64.Encode, Base64.UrlEncode, Base64.Core, Base64.UrlForm, Base64.CoreIndex;
    var core := Base64.Core(raw, |p| % 3);
    var url := Base64.UrlForm(core);
    Base64.CoreOccurs(p, raw, s);
    OccurrenceContained(Base64.Encode(p + raw + s), core, Base64.CoreIndex(|p|));
    OccurrenceContained(Base64.UrlEncode(p + raw + s), url, Base64.CoreIndex(|p|));
    assert IsBase64Form(core, raw) && IsBase64Form(url, raw);
    ScrubComplete(text, forms);
    if Contains(ScrubAll(text, forms), Base64.Encode(p + raw + s)) {
      ContainsTransitive(ScrubAll(text, forms), Base64.Encode(p + raw + s), core);
    }
    if Contains(ScrubAll(text, forms), Base64.UrlEncode(p + raw + s)) {
      ContainsTransitive(ScrubAll(text, forms), Base64.UrlEncode(p + raw + s), url);
    }
  }

  lemma OccurrenceContained(s: string, f: string, i: nat)
    requires Base64.OccursAt(f, s, i)
    ensures Contains(s, f)
  {
    assert At(s, f, i);
  }
}
