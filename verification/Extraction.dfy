/** Reading typed values off visible text, and reading back what the demo application prints. */
module Extraction {
  import opened Vocab
  import opened Schema
  import opened Result

  predicate IsDigit(c: char) {
    '0' <= c <= '9'
  }

  function DigitValue(c: char): (d: nat)
    requires IsDigit(c)
    ensures d < 10
  {
    c as int - '0' as int
  }

  function DigitChar(d: nat): (c: char)
    requires d < 10
    ensures IsDigit(c) && DigitValue(c) == d
  {
    ('0' as int + d) as char
  }

  predicate AllDigits(s: string) {
    forall i :: 0 <= i < |s| ==> IsDigit(s[i])
  }

  /** The number a run of digits stands for. */
  function Value(s: string): nat
    requires AllDigits(s)
  {
    if s == [] then 0 else 10 * Value(s[..|s| - 1]) + DigitValue(s[|s| - 1])
  }

  // ---- printing ----------------------------------------------------------------------------------

  function Decimal(n: nat): (s: string)
    ensures |s| > 0 && AllDigits(s)
  {
    if n < 10 then [DigitChar(n)] else Decimal(n / 10) + [DigitChar(n % 10)]
  }

  function Two(n: nat): (s: string)
    requires n < 100
    ensures |s| == 2 && AllDigits(s)
  {
    [DigitChar(n / 10), DigitChar(n % 10)]
  }

  function Three(n: nat): (s: string)
    requires n < 1000
    ensures |s| == 3 && AllDigits(s)
  {
    [DigitChar(n / 100), DigitChar(n / 10 % 10), DigitChar(n % 10)]
  }

  /** A number with a comma before every group of three digits. */
  function WithCommas(n: nat): (s: string)
    ensures |s| > 0 && IsDigit(s[0])
  {
    if n < 1000 then Decimal(n) else WithCommas(n / 1000) + [','] + Three(n % 1000)
  }

  /** An amount of cents as the app prints it: the sign, if any, comes after the dollar. */
  function Money(cents: int): string {
    var n := if cents < 0 then -cents else cents;
    ['$'] + (if cents < 0 then ['-'] else []) + WithCommas(n / 100) + ['.'] + Two(n % 100)
  }

  // ---- parsing -----------------------------------------------------------------------------------

  predicate IsSpace(c: char) {
    c == ' ' || c == '\t' || c == '\n' || c == '\r'
  }

  /** The words of a text, in order. */
  function Words(s: string, word: string): seq<string>
    decreases |s|
  {
    if s == [] then if word == [] then [] else [word]
    else if IsSpace(s[0]) then (if word == [] then [] else [word]) + Words(s[1..], [])
    else Words(s[1..], word + [s[0]])
  }

  function Join(words: seq<string>): string {
    if words == [] then []
    else if |words| == 1 then words[0]
    else words[0] + [' '] + Join(words[1..])
  }

  function Collapse(text: string): string {
    Join(Words(text, []))
  }

  /** One to three digits, then any number of groups of a comma and three digits. */
  predicate IsGrouped(s: string) {
    var n := |s|;
    if n <= 3 then n >= 1 && AllDigits(s)
    else n >= 5 && s[n - 4] == ',' && AllDigits(s[n - 3..]) && IsGrouped(s[..n - 4])
  }

  predicate IsNumber(s: string) {
    IsGrouped(s) || (s != [] && AllDigits(s))
  }

  function WithoutCommas(s: string): string {
    if s == [] then []
    else WithoutCommas(s[..|s| - 1]) + if s[|s| - 1] == ',' then [] else [s[|s| - 1]]
  }

  lemma {:induction false} NumberHasDigits(s: string)
    requires IsNumber(s)
    ensures AllDigits(WithoutCommas(s))
  {
    if AllDigits(s) {
      DigitsHaveNoCommas(s);
    } else {
      var n := |s|;
      NumberHasDigits(s[..n - 4]);
      assert s == s[..n - 4] + [','] + s[n - 3..];
      DigitsHaveNoCommas(s[n - 3..]);
      WithoutCommasSplits(s[..n - 4] + [','], s[n - 3..]);
      WithoutCommasSplits(s[..n - 4], [',']);
    }
  }

  lemma {:induction false} DigitsHaveNoCommas(s: string)
    requires AllDigits(s)
    ensures WithoutCommas(s) == s
  {
    if s != [] {
      DigitsHaveNoCommas(s[..|s| - 1]);
      assert s == s[..|s| - 1] + [s[|s| - 1]];
    }
  }

  lemma {:induction false} WithoutCommasSplits(a: string, b: string)
    ensures WithoutCommas(a + b) == WithoutCommas(a) + WithoutCommas(b)
  {
    if b == [] {
      assert a + b == a;
    } else {
      WithoutCommasSplits(a, b[..|b| - 1]);
      assert (a + b)[..|a + b| - 1] == a + b[..|b| - 1];
    }
  }

  function Number(s: string): nat
    requires IsNumber(s)
  {
    NumberHasDigits(s);
    Value(WithoutCommas(s))
  }

  datatype Sign = NoSign | Minus | Bracket

  function SignOf(v: string): Sign {
    if v != [] && v[0] == '-' then Minus else if v != [] && v[0] == '(' then Bracket else NoSign
  }

  function SkipSpaces(v: string): string {
    if v != [] && IsSpace(v[0]) then SkipSpaces(v[1..]) else v
  }

  predicate EndsInBracket(v: string) {
    v != [] && v[|v| - 1] == ')'
  }

  predicate HasCents(body: string) {
    |body| >= 3 && body[|body| - 3] == '.' && IsDigit(body[|body| - 2]) && IsDigit(body[|body| - 1])
  }

  /** The unsigned part of an amount: a number, with two digits of cents or none. */
  function ParseBody(body: string): Option<nat> {
    var whole := if HasCents(body) then body[..|body| - 3] else body;
    if !IsNumber(whole) then None
    else
      Some(100 * Number(whole) +
           if HasCents(body) then 10 * DigitValue(body[|body| - 2]) + DigitValue(body[|body| - 1]) else 0)
  }

  /** The cents of an amount in dollars; a minus in front or brackets around it make it negative. */
  function ParseMoney(v: string): Option<int> {
    var sign := SignOf(v);
    var unsigned := SkipSpaces(if sign.NoSign? then v else v[1..]);
    if unsigned == [] || unsigned[0] != '$' then None
    else
      var spaced := unsigned[1..];
      var tail := if spaced != [] && IsSpace(spaced[0]) then spaced[1..] else spaced;
      var amount := ParseBody(if EndsInBracket(tail) then tail[..|tail| - 1] else tail);
      if amount.None? || sign.Bracket? != EndsInBracket(v) then None
      else Some(if sign.NoSign? then amount.value as int else -(amount.value as int))
  }

  function ParseInteger(v: string): Option<int> {
    var unsigned := if v != [] && v[0] == '-' then v[1..] else v;
    if !IsNumber(unsigned) then None
    else Some(if v != unsigned then -(Number(unsigned) as int) else Number(unsigned) as int)
  }

  /** calendar is the date library: the ISO date a collapsed text stands for, if any. */
  function ParseValue(text: string, parse: ParseKind, calendar: string -> Option<string>): (r: Option<OutputValue>)
    ensures r.Some? ==> HasParse(r.value, parse)
  {
    var v := Collapse(text);
    match parse
    case Text => if v == [] then None else Some(TextValue(v))
    case MoneyUsd => var m := ParseMoney(v); if m.None? then None else Some(MoneyValue(m.value))
    case Integer => var n := ParseInteger(v); if n.None? then None else Some(IntegerValue(n.value))
    case DateIso => var d := calendar(v); if d.None? then None else Some(DateValue(d.value))
  }

  // ---- the grammar of amounts ----------------------------------------------------------------------

  predicate AllSpaces(s: string) {
    forall i :: 0 <= i < |s| ==> IsSpace(s[i])
  }

  /** The parts of an amount, as the pattern for it names them. */
  datatype Amount = Amount(neg: string, spaces: string, gap: string, num: string, frac: string, close: string)

  function Spelled(m: Amount): string {
    m.neg + m.spaces + ['$'] + m.gap + m.num + m.frac + m.close
  }

  predicate IsFrac(s: string) {
    |s| == 3 && s[0] == '.' && IsDigit(s[1]) && IsDigit(s[2])
  }

  /** Each part matches its group of the pattern, and a bracket that opens is closed and the other way round. */
  predicate AmountFits(m: Amount) {
    && (m.neg == [] || m.neg == ['-'] || m.neg == ['('])
    && AllSpaces(m.spaces)
    && (m.gap == [] || (|m.gap| == 1 && IsSpace(m.gap[0])))
    && IsNumber(m.num) && (m.frac == [] || IsFrac(m.frac))
    && (m.close == [] || m.close == [')'])
    && (m.neg == ['('] <==> m.close == [')'])
  }

  function CentsOf(m: Amount): int
    requires AmountFits(m)
  {
    var cents := 100 * Number(m.num) + if m.frac == [] then 0 else 10 * DigitValue(m.frac[1]) + DigitValue(m.frac[2]);
    if m.neg == [] then cents else -cents
  }

  lemma {:induction false} SpacesSkipped(spaces: string, rest: string)
    requires AllSpaces(spaces) && rest != [] && !IsSpace(rest[0])
    ensures SkipSpaces(spaces + rest) == rest
  {
    if spaces == [] {
      assert spaces + rest == rest;
    } else {
      assert (spaces + rest)[1..] == spaces[1..] + rest;
      SpacesSkipped(spaces[1..], rest);
    }
  }

  lemma {:induction false} SpacesInFront(v: string) returns (spaces: string)
    ensures AllSpaces(spaces) && v == spaces + SkipSpaces(v)
  {
    if v != [] && IsSpace(v[0]) {
      var rest := SpacesInFront(v[1..]);
      spaces := [v[0]] + rest;
    } else {
      spaces := [];
    }
  }

  /** A number begins and ends with a digit and holds digits and commas only. */
  lemma {:induction false} NumberShape(s: string)
    requires IsNumber(s)
    ensures s != [] && IsDigit(s[0]) && IsDigit(s[|s| - 1]) && forall i :: 0 <= i < |s| ==> IsDigit(s[i]) || s[i] == ','
  {
    var n := |s|;
    if !AllDigits(s) && n > 3 {
      NumberShape(s[..n - 4]);
      forall i | 0 <= i < n ensures IsDigit(s[i]) || s[i] == ',' {
        if i < n - 4 { assert s[..n - 4][i] == s[i]; } else if i > n - 4 { assert s[n - 3..][i - (n - 3)] == s[i]; }
      }
      assert s[n - 3..][2] == s[n - 1];
    }
  }

  /** A number with or without cents is parsed as just that. */
  lemma BodyFits(num: string, frac: string)
    requires IsNumber(num) && (frac == [] || IsFrac(frac))
    ensures ParseBody(num + frac) ==
      Some(100 * Number(num) + if frac == [] then 0 else 10 * DigitValue(frac[1]) + DigitValue(frac[2]))
    ensures num + frac != [] && IsDigit((num + frac)[0]) && IsDigit((num + frac)[|num + frac| - 1])
  {
    hide Number, IsNumber;
    NumberShape(num);
    var body := num + frac;
    if frac == [] {
      assert body == num;
    } else {
      assert body[..|body| - 3] == num;
    }
  }

  lemma BodyHas(body: string) returns (num: string, frac: string)
    requires ParseBody(body).Some?
    ensures body == num + frac && IsNumber(num) && (frac == [] || IsFrac(frac))
  {
    hide Number, IsNumber;
    num, frac := body, [];
    if HasCents(body) { num, frac := body[..|body| - 3], body[|body| - 3..]; }
  }

  lemma LastOf(a: string, b: string)
    requires b != []
    ensures (a + b)[|a + b| - 1] == b[|b| - 1]
  {
  }

  function Signless(v: string): string {
    SkipSpaces(if SignOf(v).NoSign? then v else v[1..])
  }

  function AfterGap(spaced: string): string {
    if spaced != [] && IsSpace(spaced[0]) then spaced[1..] else spaced
  }

  lemma SignParses(neg: string, spaces: string, rest: string)
    requires neg == [] || neg == ['-'] || neg == ['(']
    requires AllSpaces(spaces) && rest != [] && rest[0] == '$'
    ensures var v := neg + (spaces + rest);
      Signless(v) == rest && SignOf(v) == if neg == [] then NoSign else if neg == ['-'] then Minus else Bracket
  {
    hide SkipSpaces;
    var v := neg + (spaces + rest);
    SpacesSkipped(spaces, rest);
    if neg == [] { assert v == spaces + rest; } else { assert v[1..] == spaces + rest; }
  }

  lemma GapParses(gap: string, tail: string)
    requires (gap == [] || (|gap| == 1 && IsSpace(gap[0]))) && tail != [] && IsDigit(tail[0])
    ensures AfterGap(gap + tail) == tail
  {
    if gap == [] { assert gap + tail == tail; } else { assert (gap + tail)[1..] == tail; }
  }

  lemma CloseParses(body: string, close: string)
    requires body != [] && IsDigit(body[|body| - 1]) && (close == [] || close == [')'])
    ensures var tail := body + close;
      && tail != [] && tail[0] == body[0]
      && (EndsInBracket(tail) <==> close == [')']) && (if EndsInBracket(tail) then tail[..|tail| - 1] else tail) == body
  {
    if close == [] { assert body + close == body; } else { assert (body + close)[..|body|] == body; }
  }

  /** The parser in terms of what is left after the sign, the spaces, the dollar and the gap. */
  lemma ParsedParts(v: string)
    ensures var unsigned := Signless(v);
      ParseMoney(v) ==
        if unsigned == [] || unsigned[0] != '$' then None
        else
          var tail := AfterGap(unsigned[1..]);
          var amount := ParseBody(if EndsInBracket(tail) then tail[..|tail| - 1] else tail);
          if amount.None? || SignOf(v).Bracket? != EndsInBracket(v) then None
          else Some(if SignOf(v).NoSign? then amount.value as int else -(amount.value as int))
  {
  }

  lemma Regrouped(a: string, b: string, c: string, d: string, e: string, f: string, g: string)
    ensures a + b + c + d + e + f + g == a + (b + (c + (d + (e + f + g))))
    ensures a + b + c + d + e + f + g == (a + b + c + d) + (e + f + g)
  {
  }

  lemma AmountParses(m: Amount)
    requires AmountFits(m)
    ensures ParseMoney(Spelled(m)) == Some(CentsOf(m))
  {
    hide Number, IsNumber, ParseBody, IsFrac, ParseMoney, Signless, SignOf, AfterGap, EndsInBracket, AllSpaces;
    var v, body := Spelled(m), m.num + m.frac;
    var tail := body + m.close;
    var rest := ['$'] + (m.gap + tail);
    Regrouped(m.neg, m.spaces, ['$'], m.gap, m.num, m.frac, m.close);
    assert rest[1..] == m.gap + tail;
    BodyFits(m.num, m.frac);
    SignParses(m.neg, m.spaces, rest);
    CloseParses(body, m.close);
    GapParses(m.gap, tail);
    SameEnding(m.neg + m.spaces + ['$'] + m.gap, tail);
    ParsedParts(v);
  }

  lemma SameEnding(a: string, b: string)
    requires b != []
    ensures EndsInBracket(a + b) <==> EndsInBracket(b)
  {
    LastOf(a, b);
  }

  lemma GapTaken(spaced: string) returns (gap: string)
    ensures (gap == [] || (|gap| == 1 && IsSpace(gap[0]))) && spaced == gap + AfterGap(spaced)
  {
    gap := if spaced != [] && IsSpace(spaced[0]) then [spaced[0]] else [];
  }

  lemma CloseTaken(tail: string) returns (body: string, close: string)
    ensures tail == body + close && (close == [] || close == [')']) && (EndsInBracket(tail) <==> close == [')'])
    ensures body == if EndsInBracket(tail) then tail[..|tail| - 1] else tail
  {
    body, close := tail, [];
    if EndsInBracket(tail) { body, close := tail[..|tail| - 1], [')']; }
  }

  lemma SignTaken(v: string) returns (neg: string, spaces: string)
    ensures v == neg + (spaces + Signless(v)) && AllSpaces(spaces)
    ensures neg == if SignOf(v).NoSign? then [] else if SignOf(v).Minus? then ['-'] else ['(']
  {
    hide SkipSpaces, AllSpaces;
    neg := if SignOf(v).NoSign? then [] else [v[0]];
    spaces := SpacesInFront(if SignOf(v).NoSign? then v else v[1..]);
  }

  lemma ParsedIsAmount(v: string) returns (m: Amount)
    requires ParseMoney(v).Some?
    ensures AmountFits(m) && Spelled(m) == v
  {
    hide Number, IsNumber, ParseBody, IsFrac, ParseMoney, Signless, SignOf, AfterGap, EndsInBracket, AllSpaces;
    ParsedParts(v);
    var neg, spaces := SignTaken(v);
    var unsigned := Signless(v);
    var gap := GapTaken(unsigned[1..]);
    var tail := AfterGap(unsigned[1..]);
    var body, close := CloseTaken(tail);
    var num, frac := BodyHas(body);
    m := Amount(neg, spaces, gap, num, frac, close);
    assert unsigned == ['$'] + (gap + tail);
    Regrouped(neg, spaces, ['$'], gap, num, frac, close);
    NumberShape(num);
    SameEnding(neg + spaces + ['$'] + gap, tail);
  }

  /** The parser accepts exactly what the pattern for amounts spells, and reads each spelling as its value. */
  lemma MoneyGrammar(v: string, cents: int)
    ensures ParseMoney(v) == Some(cents) <==> exists m :: AmountFits(m) && Spelled(m) == v && CentsOf(m) == cents
  {
    hide ParseMoney, AmountFits, Spelled, CentsOf;
    if ParseMoney(v) == Some(cents) {
      var m := ParsedIsAmount(v);
      AmountParses(m);
    }
    if exists m :: AmountFits(m) && Spelled(m) == v && CentsOf(m) == cents {
      var m :| AmountFits(m) && Spelled(m) == v && CentsOf(m) == cents;
      AmountParses(m);
    }
  }

  // ---- what is printed is read back --------------------------------------------------------------

  lemma {:induction false} DecimalReadsBack(n: nat)
    ensures Value(Decimal(n)) == n
  {
    if n >= 10 {
      DecimalReadsBack(n / 10);
      assert Decimal(n)[..|Decimal(n)| - 1] == Decimal(n / 10);
    }
  }

  /** Below a thousand, a number has at most three digits. */
  lemma SmallDecimal(n: nat)
    requires n < 1000
    ensures |Decimal(n)| <= 3
  {
    assert n / 10 / 10 < 10;
    if n >= 100 {
      assert Decimal(n) == Decimal(n / 10) + [DigitChar(n % 10)];
      assert Decimal(n / 10) == Decimal(n / 10 / 10) + [DigitChar(n / 10 % 10)];
    }
  }

  lemma AppendThree(a: string, n: nat)
    requires AllDigits(a) && n < 1000
    ensures AllDigits(a + Three(n)) && Value(a + Three(n)) == 1000 * Value(a) + n
  {
    var t := Three(n);
    var s1 := a + [t[0]];
    var s2 := s1 + [t[1]];
    var s3 := s2 + [t[2]];
    assert a + t == s3;
    assert s1[..|s1| - 1] == a && s2[..|s2| - 1] == s1 && s3[..|s3| - 1] == s2;
    assert Value(s1) == 10 * Value(a) + n / 100;
    assert Value(s2) == 10 * Value(s1) + n / 10 % 10;
    assert Value(s3) == 10 * Value(s2) + n % 10;
  }

  lemma {:induction false} CommasReadBack(n: nat)
    ensures IsGrouped(WithCommas(n)) && Number(WithCommas(n)) == n
  {
    if n < 1000 {
      SmallDecimal(n);
      DecimalReadsBack(n);
      DigitsHaveNoCommas(Decimal(n));
    } else {
      var high := WithCommas(n / 1000);
      var low := Three(n % 1000);
      var s := WithCommas(n);
      CommasReadBack(n / 1000);
      assert s == high + [','] + low;
      assert s[..|s| - 4] == high && s[|s| - 4] == ',' && s[|s| - 3..] == low;
      WithoutCommasSplits(high + [','], low);
      WithoutCommasSplits(high, [',']);
      DigitsHaveNoCommas(low);
      NumberHasDigits(high);
      assert WithoutCommas([',']) == [] by { assert [','][..0] == []; }
      assert WithoutCommas(s) == WithoutCommas(high) + low;
      AppendThree(WithoutCommas(high), n % 1000);
    }
  }

  lemma BodyReadsBack(n: nat)
    ensures ParseBody(WithCommas(n / 100) + ['.'] + Two(n % 100)) == Some(n)
  {
    hide WithCommas, Number, IsGrouped;
    var whole := WithCommas(n / 100);
    var body := whole + ['.'] + Two(n % 100);
    assert body[|body| - 3] == '.' && body[|body| - 2..] == Two(n % 100) && body[..|body| - 3] == whole;
    CommasReadBack(n / 100);
    assert n == 100 * (n / 100) + n % 100;
  }

  lemma {:induction false} WordsOfOne(s: string, word: string)
    requires forall i :: 0 <= i < |s| ==> !IsSpace(s[i])
    requires s + word != []
    ensures Words(s, word) == [word + s]
  {
    if s == [] {
      assert word + s == word;
    } else {
      WordsOfOne(s[1..], word + [s[0]]);
      assert word + [s[0]] + s[1..] == word + s;
    }
  }

  lemma {:induction false} GroupedHasNoSpace(s: string)
    requires IsGrouped(s)
    ensures forall i :: 0 <= i < |s| ==> !IsSpace(s[i])
  {
    var n := |s|;
    if n > 3 {
      GroupedHasNoSpace(s[..n - 4]);
      forall i | 0 <= i < n ensures !IsSpace(s[i]) {
        if i < n - 4 { assert s[..n - 4][i] == s[i]; } else if i > n - 4 { assert s[n - 3..][i - (n - 3)] == s[i]; }
      }
    }
  }

  lemma MoneyCollapses(cents: int)
    ensures Collapse(Money(cents)) == Money(cents)
  {
    var n := if cents < 0 then -cents else cents;
    CommasReadBack(n / 100);
    GroupedHasNoSpace(WithCommas(n / 100));
    WordsOfOne(Money(cents), []);
    assert [] + Money(cents) == Money(cents);
  }

  /**
   * Reading an amount the app printed gives the amount back exactly when it is not negative: the
   * printer puts a minus after the dollar, where the parser accepts none.
   */
  lemma MoneyRoundTrip(cents: int, calendar: string -> Option<string>)
    ensures ParseValue(Money(cents), MoneyUsd, calendar) == (if cents >= 0 then Some(MoneyValue(cents)) else None)
  {
    MoneyCollapses(cents);
    var n := if cents < 0 then -cents else cents;
    var s := Money(cents);
    assert s[0] == '$' && SignOf(s) == NoSign && SkipSpaces(s) == s;
    assert !EndsInBracket(s) by { assert s[|s| - 1] == Two(n % 100)[1]; }
    var printed := WithCommas(n / 100) + ['.'] + Two(n % 100);
    if cents >= 0 {
      assert s[1..] == printed;
      assert !EndsInBracket(printed) by { assert printed[|printed| - 1] == Two(n % 100)[1]; }
      BodyReadsBack(n);
    } else {
      assert s[1..] == ['-'] + printed;
      var tail := s[1..];
      assert tail[0] == '-' && !EndsInBracket(tail) by { assert tail[|tail| - 1] == Two(n % 100)[1]; }
      NoNumberAfterMinus(if HasCents(tail) then tail[..|tail| - 3] else tail);
    }
  }

  lemma {:induction false} NoNumberAfterMinus(s: string)
    requires s != [] && s[0] == '-'
    ensures !IsNumber(s)
  {
    if |s| > 3 && IsGrouped(s) { NoNumberAfterMinus(s[..|s| - 4]); }
  }

  /** A printed amount is a dollar and a body that no bracket or space touches. */
  lemma MoneyShape(n: nat)
    ensures var s := Money(n);
      && |s| >= 2 && s[0] == '$' && IsDigit(s[1]) && IsDigit(s[|s| - 1]) && ParseBody(s[1..]) == Some(n)
  {
    var printed := WithCommas(n / 100) + ['.'] + Two(n % 100);
    assert Money(n)[1..] == printed;
    assert printed[0] == WithCommas(n / 100)[0] && printed[|printed| - 1] == Two(n % 100)[1];
    BodyReadsBack(n);
  }

  /** The two ways a negative amount may be written are read back as that amount. */
  lemma NegativeForms(n: nat)
    ensures ParseMoney(['-'] + Money(n)) == Some(-(n as int))
    ensures ParseMoney(['('] + Money(n) + [')']) == Some(-(n as int))
  {
    hide Money, ParseBody, WithCommas;
    var s := Money(n);
    MoneyShape(n);
    var minus, bracketed := ['-'] + s, ['('] + s + [')'];
    assert minus[1..] == s && bracketed[1..] == s + [')'];
    assert (s + [')'])[1..] == s[1..] + [')'];
    assert (s[1..] + [')'])[..|s| - 1] == s[1..];
  }

  /** A bracket on one side only is refused. */
  lemma UnmatchedBracketRefused(n: nat)
    ensures ParseMoney(['('] + Money(n)) == None && ParseMoney(Money(n) + [')']) == None
  {
    hide Money, ParseBody, WithCommas;
    var s := Money(n);
    MoneyShape(n);
    var left, right := ['('] + s, s + [')'];
    assert left[1..] == s && left[|left| - 1] == s[|s| - 1];
    assert right[0] == '$' && right[|right| - 1] == ')';
  }

  /** A whole number printed with commas, or with a leading minus, is read back. */
  lemma IntegerRoundTrip(n: nat)
    ensures ParseInteger(WithCommas(n)) == Some(n)
    ensures ParseInteger(['-'] + WithCommas(n)) == Some(-(n as int))
  {
    CommasReadBack(n);
    assert (['-'] + WithCommas(n))[1..] == WithCommas(n);
  }
}
