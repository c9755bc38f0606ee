/** Base64 (RFC 4648, sections 4 and 5) and the part of a value's encoding its neighbours cannot change. */
module Base64 {

  type Byte = b: nat | b < 256 witness 0
  type Sextet = v: nat | v < 64 witness 0

  // ---- the encoding, three bytes at a time ---------------------------------------------------------

  function Symbol(v: Sextet): char {
    if v < 26 then ('A' as int + v) as char
    else if v < 52 then ('a' as int + (v - 26)) as char
    else if v < 62 then ('0' as int + (v - 52)) as char
    else if v == 62 then '+'
    else '/'
  }

  /** The alphabet of section 5, safe in URLs and file names. */
  function UrlSymbol(v: Sextet): char {
    if v == 62 then '-' else if v == 63 then '_' else Symbol(v)
  }

  /** The four characters of the first group of up to three bytes; '=' stands for what is missing. */
  function Group(data: seq<Byte>, symbol: Sextet -> char): (s: string)
    requires data != []
    ensures |s| == 4
  {
    var b0 := data[0];
    if |data| == 1 then [symbol(b0 / 4), symbol(b0 % 4 * 16), '=', '=']
    else
      var b1 := data[1];
      if |data| == 2 then [symbol(b0 / 4), symbol(b0 % 4 * 16 + b1 / 16), symbol(b1 % 16 * 4), '=']
      else
        var b2 := data[2];
        [symbol(b0 / 4), symbol(b0 % 4 * 16 + b1 / 16), symbol(b1 % 16 * 4 + b2 / 64), symbol(b2 % 64)]
  }

  function EncodeWith(data: seq<Byte>, symbol: Sextet -> char): (s: string)
    ensures |s| == 4 * ((|data| + 2) / 3)
    decreases |data|
  {
    if data == [] then []
    else Group(data, symbol) + EncodeWith(if |data| > 3 then data[3..] else [], symbol)
  }

  function Encode(data: seq<Byte>): string {
    EncodeWith(data, Symbol)
  }

  function UrlEncode(data: seq<Byte>): string {
    EncodeWith(data, UrlSymbol)
  }

  // ---- the encoding, bit by bit --------------------------------------------------------------------

  /** Bit j of a byte, the most significant first. */
  function BitOf(b: Byte, j: nat): (v: nat)
    requires j < 8
    ensures v < 2
  {
    match j
    case 0 => b / 128
    case 1 => b / 64 % 2
    case 2 => b / 32 % 2
    case 3 => b / 16 % 2
    case 4 => b / 8 % 2
    case 5 => b / 4 % 2
    case 6 => b / 2 % 2
    case 7 => b % 2
  }

  /** Bit j of a byte string; past its end the bits are zero. */
  function BitAt(data: seq<Byte>, j: nat): (v: nat)
    ensures v < 2
  {
    if j / 8 < |data| then BitOf(data[j / 8], j % 8) else 0
  }

  /** The six bits from bit j on, as a number. */
  function SextetAt(data: seq<Byte>, j: nat): Sextet {
    32 * BitAt(data, j) + 16 * BitAt(data, j + 1) + 8 * BitAt(data, j + 2)
    + 4 * BitAt(data, j + 3) + 2 * BitAt(data, j + 4) + BitAt(data, j + 5)
  }

  lemma Halvings(b: Byte)
    ensures b / 4 == b / 2 / 2 && b / 8 == b / 4 / 2 && b / 16 == b / 8 / 2
    ensures b / 32 == b / 16 / 2 && b / 64 == b / 32 / 2 && b / 128 == b / 64 / 2
    ensures b % 4 == b - 4 * (b / 4) && b % 16 == b - 16 * (b / 16) && b % 64 == b - 64 * (b / 64)
  {
  }

  /** The parts a byte contributes to sextets, read off its bits. */
  lemma ByteFromBits(b: Byte)
    ensures b / 4 ==
      32 * BitOf(b, 0) + 16 * BitOf(b, 1) + 8 * BitOf(b, 2) + 4 * BitOf(b, 3) + 2 * BitOf(b, 4) + BitOf(b, 5)
    ensures b % 4 == 2 * BitOf(b, 6) + BitOf(b, 7)
    ensures b / 16 == 8 * BitOf(b, 0) + 4 * BitOf(b, 1) + 2 * BitOf(b, 2) + BitOf(b, 3)
    ensures b % 16 == 8 * BitOf(b, 4) + 4 * BitOf(b, 5) + 2 * BitOf(b, 6) + BitOf(b, 7)
    ensures b / 64 == 2 * BitOf(b, 0) + BitOf(b, 1)
    ensures b % 64 ==
      32 * BitOf(b, 2) + 16 * BitOf(b, 3) + 8 * BitOf(b, 4) + 4 * BitOf(b, 5) + 2 * BitOf(b, 6) + BitOf(b, 7)
  {
    Halvings(b);
    var h1, h2, h3, h4, h5, h6, h7 := b / 2, b / 4, b / 8, b / 16, b / 32, b / 64, b / 128;
    assert h6 == 2 * h7 + BitOf(b, 1);
    assert h5 == 2 * h6 + BitOf(b, 2);
    assert h4 == 2 * h5 + BitOf(b, 3);
    assert h3 == 2 * h4 + BitOf(b, 4);
    assert h2 == 2 * h3 + BitOf(b, 5);
    assert h1 == 2 * h2 + BitOf(b, 6);
    assert b == 2 * h1 + BitOf(b, 7);
  }

  lemma BitWithin(data: seq<Byte>, i: nat, t: nat)
    requires t < 8
    ensures BitAt(data, 8 * i + t) == if i < |data| then BitOf(data[i], t) else 0
  {
    hide BitOf;
  }

  lemma BitsOfByte(data: seq<Byte>, i: nat)
    requires i < |data|
    ensures BitAt(data, 8 * i) == BitOf(data[i], 0) && BitAt(data, 8 * i + 1) == BitOf(data[i], 1)
    ensures BitAt(data, 8 * i + 2) == BitOf(data[i], 2) && BitAt(data, 8 * i + 3) == BitOf(data[i], 3)
    ensures BitAt(data, 8 * i + 4) == BitOf(data[i], 4) && BitAt(data, 8 * i + 5) == BitOf(data[i], 5)
    ensures BitAt(data, 8 * i + 6) == BitOf(data[i], 6) && BitAt(data, 8 * i + 7) == BitOf(data[i], 7)
  {
    hide BitOf, BitAt;
    BitWithin(data, i, 0);
    BitWithin(data, i, 1);
    BitWithin(data, i, 2);
    BitWithin(data, i, 3);
    BitWithin(data, i, 4);
    BitWithin(data, i, 5);
    BitWithin(data, i, 6);
    BitWithin(data, i, 7);
  }

  lemma NoBitsPast(data: seq<Byte>, j: nat)
    requires j >= 8 * |data|
    ensures BitAt(data, j) == 0
  {
  }

  /** The first group's sextets, by arithmetic on its bytes. */
  lemma FirstSextets(data: seq<Byte>)
    requires data != []
    ensures SextetAt(data, 0) == data[0] / 4
    ensures SextetAt(data, 6) == data[0] % 4 * 16 + (if |data| > 1 then data[1] / 16 else 0)
    ensures |data| > 1 ==> SextetAt(data, 12) == data[1] % 16 * 4 + (if |data| > 2 then data[2] / 64 else 0)
    ensures |data| > 2 ==> SextetAt(data, 18) == data[2] % 64
  {
    hide BitOf, BitAt;
    ByteFromBits(data[0]);
    BitsOfByte(data, 0);
    if |data| > 1 {
      ByteFromBits(data[1]);
      BitsOfByte(data, 1);
    } else {
      NoBitsPast(data, 8); NoBitsPast(data, 9); NoBitsPast(data, 10); NoBitsPast(data, 11);
    }
    if |data| > 2 {
      ByteFromBits(data[2]);
      BitsOfByte(data, 2);
    } else if |data| > 1 {
      NoBitsPast(data, 16); NoBitsPast(data, 17);
    }
  }

  /** Two stretches of six equal bits are the same sextet. */
  lemma SameSextet(a: seq<Byte>, i: nat, b: seq<Byte>, j: nat)
    requires BitAt(a, i) == BitAt(b, j) && BitAt(a, i + 1) == BitAt(b, j + 1) && BitAt(a, i + 2) == BitAt(b, j + 2)
    requires BitAt(a, i + 3) == BitAt(b, j + 3) && BitAt(a, i + 4) == BitAt(b, j + 4)
    requires BitAt(a, i + 5) == BitAt(b, j + 5)
    ensures SextetAt(a, i) == SextetAt(b, j)
  {
    hide BitAt;
  }

  /** Dropping whole bytes from the front moves every bit by eight a byte. */
  lemma BitShifts(data: seq<Byte>, n: nat, j: nat)
    requires n <= |data|
    ensures BitAt(data, 8 * n + j) == BitAt(data[n..], j)
  {
    hide BitOf;
    assert (8 * n + j) / 8 == n + j / 8 && (8 * n + j) % 8 == j % 8;
  }

  lemma SextetShifts(data: seq<Byte>, n: nat, j: nat)
    requires n <= |data|
    ensures SextetAt(data, 8 * n + j) == SextetAt(data[n..], j)
  {
    hide BitAt, SextetAt;
    BitShifts(data, n, j);
    BitShifts(data, n, j + 1);
    BitShifts(data, n, j + 2);
    BitShifts(data, n, j + 3);
    BitShifts(data, n, j + 4);
    BitShifts(data, n, j + 5);
    SameSextet(data, 8 * n + j, data[n..], j);
  }

  lemma GroupHoldsBits(data: seq<Byte>, symbol: Sextet -> char, k: nat)
    requires k < 4 && data != []
    ensures Group(data, symbol)[k] == if 6 * k < 8 * |data| then symbol(SextetAt(data, 6 * k)) else '='
  {
    hide SextetAt;
    FirstSextets(data);
  }

  /** Encoding by groups of three bytes is encoding six bits at a time, zero-filled and padded. */
  lemma {:induction false} EncodesBits(data: seq<Byte>, symbol: Sextet -> char, k: nat)
    requires k < 4 * ((|data| + 2) / 3)
    ensures EncodeWith(data, symbol)[k] == if 6 * k < 8 * |data| then symbol(SextetAt(data, 6 * k)) else '='
  {
    hide SextetAt, Group;
    if k < 4 {
      GroupHoldsBits(data, symbol, k);
    } else {
      EncodesBits(data[3..], symbol, k - 4);
      SextetShifts(data, 3, 6 * (k - 4));
      assert 8 * 3 + 6 * (k - 4) == 6 * k;
    }
  }

  // ---- the core of a value -------------------------------------------------------------------------

  /** The first and one past the last character all of whose bits belong to a value at byte offset o. */
  function CoreStart(o: nat): nat {
    (8 * o + 5) / 6
  }

  function CoreEnd(o: nat, n: nat): nat {
    8 * (o + n) / 6
  }

  function Zeros(o: nat): (z: seq<Byte>)
    ensures |z| == o
  {
    seq(o, _ => 0)
  }

  function Core(raw: seq<Byte>, o: nat): (core: string)
    requires o < 3
    ensures |core| == if CoreStart(o) <= CoreEnd(o, |raw|) then CoreEnd(o, |raw|) - CoreStart(o) else 0
  {
    var encoded := Encode(Zeros(o) + raw);
    if CoreStart(o) <= CoreEnd(o, |raw|) then encoded[CoreStart(o)..CoreEnd(o, |raw|)] else []
  }

  function ReplaceChar(s: string, was: char, now: char): (r: string)
    ensures |r| == |s|
    ensures forall i :: 0 <= i < |s| ==> r[i] == if s[i] == was then now else s[i]
  {
    seq(|s|, i requires 0 <= i < |s| => if s[i] == was then now else s[i])
  }

  function UrlForm(s: string): (r: string)
    ensures |r| == |s|
  {
    ReplaceChar(ReplaceChar(s, '+', '-'), '/', '_')
  }

  lemma SymbolTranslates(v: Sextet)
    ensures UrlSymbol(v) == (if Symbol(v) == '+' then '-' else if Symbol(v) == '/' then '_' else Symbol(v))
    ensures Symbol(v) != '[' && Symbol(v) != ']' && Symbol(v) != '-' && Symbol(v) != '_'
  {
  }

  /** The url-safe encoding is the translated one. */
  lemma UrlFormOfEncoding(data: seq<Byte>)
    ensures UrlEncode(data) == UrlForm(Encode(data))
  {
    hide SextetAt, Symbol, UrlSymbol;
    forall k | 0 <= k < |Encode(data)| ensures UrlEncode(data)[k] == UrlForm(Encode(data))[k] {
      EncodesBits(data, Symbol, k);
      EncodesBits(data, UrlSymbol, k);
      SymbolTranslates(SextetAt(data, 6 * k));
    }
  }

  /** A bit of the value is found wherever the value is. */
  lemma BitOfValue(p: seq<Byte>, raw: seq<Byte>, s: seq<Byte>, j: nat)
    requires j < 8 * |raw|
    ensures BitAt(p + raw + s, 8 * |p| + j) == BitAt(raw, j)
  {
    hide BitOf;
    BitShifts(p + raw + s, |p|, j);
    assert (p + raw + s)[|p|..] == raw + s;
    assert j / 8 < |raw| && (raw + s)[j / 8] == raw[j / 8];
  }

  lemma SextetOfValue(p: seq<Byte>, raw: seq<Byte>, s: seq<Byte>, j: nat)
    requires j + 6 <= 8 * |raw|
    ensures SextetAt(p + raw + s, 8 * |p| + j) == SextetAt(raw, j)
  {
    hide BitAt, SextetAt;
    BitOfValue(p, raw, s, j);
    BitOfValue(p, raw, s, j + 1);
    BitOfValue(p, raw, s, j + 2);
    BitOfValue(p, raw, s, j + 3);
    BitOfValue(p, raw, s, j + 4);
    BitOfValue(p, raw, s, j + 5);
    SameSextet(p + raw + s, 8 * |p| + j, raw, j);
  }

  /** Where the core of a value that follows n bytes starts in the encoding of the whole. */
  function CoreIndex(n: nat): nat {
    4 * (n / 3) + CoreStart(n % 3)
  }

  ghost predicate OccursAt(core: string, s: string, i: nat) {
    i + |core| <= |s| && s[i..i + |core|] == core
  }

  lemma CoreCharacter(p: seq<Byte>, raw: seq<Byte>, s: seq<Byte>, k: nat)
    requires k < |Core(raw, |p| % 3)|
    ensures CoreIndex(|p|) + k < |Encode(p + raw + s)|
    ensures Encode(p + raw + s)[CoreIndex(|p|) + k] == Core(raw, |p| % 3)[k]
  {
    hide SextetAt, Symbol, EncodeWith;
    var o, q := |p| % 3, |p| / 3;
    var i := CoreStart(o) + k;
    var j := 6 * i - 8 * o;
    assert 0 <= j && j + 6 <= 8 * |raw|;
    assert Core(raw, o)[k] == Encode(Zeros(o) + raw)[i];
    EncodesBits(Zeros(o) + raw, Symbol, i);
    SextetOfValue(Zeros(o), raw, [], j);
    assert Zeros(o) + raw + [] == Zeros(o) + raw;
    assert |p| == 3 * q + o;
    assert CoreIndex(|p|) + k == 4 * q + i;
    assert 6 * (4 * q + i) == 8 * |p| + j;
    EncodesBits(p + raw + s, Symbol, 4 * q + i);
    SextetOfValue(p, raw, s, j);
  }

  /**
   * Whatever bytes stand before and after a value, the encoding of the whole holds the core computed
   * for the value's offset modulo three, at the index the offset gives, in both alphabets.
   */
  lemma CoreOccurs(p: seq<Byte>, raw: seq<Byte>, s: seq<Byte>)
    ensures |Core(raw, |p| % 3)| > 0 ==> OccursAt(Core(raw, |p| % 3), Encode(p + raw + s), CoreIndex(|p|))
    ensures |Core(raw, |p| % 3)| > 0 ==> OccursAt(UrlForm(Core(raw, |p| % 3)), UrlEncode(p + raw + s), CoreIndex(|p|))
  {
    hide Core, Encode, UrlEncode, CoreIndex;
    var core, whole, at := Core(raw, |p| % 3), Encode(p + raw + s), CoreIndex(|p|);
    forall k | 0 <= k < |core| ensures at + k < |whole| && whole[at + k] == core[k] {
      CoreCharacter(p, raw, s, k);
    }
    UrlFormOfEncoding(p + raw + s);
    if |core| > 0 {
      CoreCharacter(p, raw, s, |core| - 1);
    }
  }

  // ---- the core is exactly what is fixed -----------------------------------------------------------

  /** Two surroundings of a value with the same offset give the same character k. */
  ghost predicate SameCharacter(
    raw: seq<Byte>, k: nat, p: seq<Byte>, s: seq<Byte>, q: seq<Byte>, t: seq<Byte>)
  {
    var a, b := Encode(p + raw + s), Encode(q + raw + t);
    k < |a| && k < |b| ==> a[k] == b[k]
  }

  ghost predicate Fixed(raw: seq<Byte>, o: nat, k: nat) {
    forall p, s, q, t :: |p| == o && |q| == o ==> SameCharacter(raw, k, p, s, q, t)
  }

  lemma SymbolInjective(v: Sextet, w: Sextet)
    requires Symbol(v) == Symbol(w)
    ensures v == w
  {
  }

  lemma TailSextet(data: seq<Byte>, j: nat)
    ensures SextetAt(data, j) % 2 == BitAt(data, j + 5)
    ensures SextetAt(data, j) / 32 == BitAt(data, j)
  {
    hide BitAt;
  }

  lemma BitOfNeighbour(data: seq<Byte>, i: nat, t: nat)
    requires i < |data| && t < 8
    requires data[i] == 0 || data[i] == 255
    ensures BitAt(data, 8 * i + t) == if data[i] == 0 then 0 else 1
  {
  }

  lemma BeforeCoreVaries(raw: seq<Byte>, o: nat, k: nat)
    requires o < 3 && raw != []
    requires 8 * o < 6 * k + 6 && k < CoreStart(o)
    ensures !Fixed(raw, o, k)
  {
    hide SextetAt, Symbol, EncodeWith, BitAt;
    var p, q := Zeros(o), Zeros(o)[o - 1 := 255];
    var a, b := p + raw + [], q + raw + [];
    EncodesBits(a, Symbol, k);
    EncodesBits(b, Symbol, k);
    assert 6 * k == 8 * (o - 1) + (6 * k - 8 * (o - 1)) && 0 <= 6 * k - 8 * (o - 1) < 8;
    assert a[o - 1] == 0 && b[o - 1] == 255;
    BitOfNeighbour(a, o - 1, 6 * k - 8 * (o - 1));
    BitOfNeighbour(b, o - 1, 6 * k - 8 * (o - 1));
    TailSextet(a, 6 * k);
    TailSextet(b, 6 * k);
    if Encode(a)[k] == Encode(b)[k] {
      SymbolInjective(SextetAt(a, 6 * k), SextetAt(b, 6 * k));
    }
    assert !SameCharacter(raw, k, p, [], q, []);
  }

  lemma AfterCoreVaries(raw: seq<Byte>, o: nat, k: nat)
    requires o < 3 && raw != []
    requires 6 * k < 8 * (o + |raw|) && k >= CoreEnd(o, |raw|)
    ensures !Fixed(raw, o, k)
  {
    hide SextetAt, Symbol, EncodeWith, BitAt;
    var p, n := Zeros(o), o + |raw|;
    var a, b := p + raw + [0], p + raw + [255];
    EncodesBits(a, Symbol, k);
    EncodesBits(b, Symbol, k);
    assert a[n] == 0 && b[n] == 255;
    assert 0 <= 6 * k + 5 - 8 * n < 8;
    BitOfNeighbour(a, n, 6 * k + 5 - 8 * n);
    BitOfNeighbour(b, n, 6 * k + 5 - 8 * n);
    TailSextet(a, 6 * k);
    TailSextet(b, 6 * k);
    if Encode(a)[k] == Encode(b)[k] {
      SymbolInjective(SextetAt(a, 6 * k), SextetAt(b, 6 * k));
    }
    assert !SameCharacter(raw, k, p, [0], p, [255]);
  }

  lemma WithinCoreFixed(raw: seq<Byte>, o: nat, k: nat)
    requires o < 3 && CoreStart(o) <= k < CoreEnd(o, |raw|)
    ensures Fixed(raw, o, k)
  {
    hide Core, Encode;
    forall p, s, q, t | |p| == o && |q| == o ensures SameCharacter(raw, k, p, s, q, t) {
      CoreCharacter(p, raw, s, k - CoreStart(o));
      CoreCharacter(q, raw, t, k - CoreStart(o));
    }
  }

  /**
   * Of the characters that carry any bit of a value, those no neighbour can change are exactly the
   * core: a shorter one would miss fixed characters, a longer one would miss occurrences.
   */
  lemma CoreIsWhatIsFixed(raw: seq<Byte>, o: nat, k: nat)
    requires o < 3 && raw != []
    requires 8 * o < 6 * k + 6 && 6 * k < 8 * (o + |raw|)
    ensures Fixed(raw, o, k) <==> CoreStart(o) <= k < CoreEnd(o, |raw|)
  {
    hide Fixed;
    if k < CoreStart(o) {
      BeforeCoreVaries(raw, o, k);
    } else if k < CoreEnd(o, |raw|) {
      WithinCoreFixed(raw, o, k);
    } else {
      AfterCoreVaries(raw, o, k);
    }
  }

  // ---- the forms a redactor looks for --------------------------------------------------------------

  /** The cores of a value, one for each offset whose core is long enough, in both alphabets. */
  method Base64Forms(raw: seq<Byte>, minLen: nat) returns (forms: set<string>)
    ensures forall f :: f in forms <==>
      exists o: nat :: o < 3 && |Core(raw, o)| >= minLen && (f == Core(raw, o) || f == UrlForm(Core(raw, o)))
  {
    hide Core, UrlForm;
    forms := {};
    for offset := 0 to 3
      invariant forall f :: f in forms <==>
        exists o: nat :: o < offset && |Core(raw, o)| >= minLen && (f == Core(raw, o) || f == UrlForm(Core(raw, o)))
    {
      var core := Core(raw, offset);
      if |core| >= minLen {
        forms := forms + {core, UrlForm(core)};
      }
    }
  }
}
