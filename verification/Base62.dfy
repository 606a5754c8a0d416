/** The short-link codec of internal/hash/base62.go, on 64-bit wrapping arithmetic. */
module Base62 {
  import opened Wrappers

  const TWO_64: nat := 0x1_0000_0000_0000_0000

  // 62^6: added before encoding so that every id below the wrap has at least 7 digits.
  const OFFSET: nat := 56_800_235_584

  // 62^7 - 62^6: the first id whose link no longer fits the 7-character redirect route.
  const FIRST_LONG_ID: nat := 3_464_814_370_624

  const ALPHABET: string := "0123456789" + "ABCDEFGHIJKLMNOPQRSTUVWXYZ" + "abcdefghijklmnopqrstuvwxyz"

  type uint64 = n: int | 0 <= n < TWO_64

  datatype DecodeError = EmptyString | InvalidCharacter | Underflow

  // ----- Digits -------------------------------------------------------------------------------

  /** The letter of the alphabet at index d. */
  function Letter(d: nat): (c: char)
    requires d < 62
  {
    if d < 10 then '0' + d as char
    else if d < 36 then 'A' + (d - 10) as char
    else 'a' + (d - 36) as char
  }

  /** Index of c in the alphabet, or -1, as strings.IndexRune returns it. */
  function IndexOf(c: char): (d: int)
    ensures -1 <= d < 62
    ensures d >= 0 ==> Letter(d) == c
    ensures d < 0 ==> forall k: nat | k < 62 :: Letter(k) != c
  {
    if '0' <= c <= '9' then (c - '0') as int
    else if 'A' <= c <= 'Z' then (c - 'A') as int + 10
    else if 'a' <= c <= 'z' then (c - 'a') as int + 36
    else -1
  }

  predicate OverAlphabet(s: string) {
    forall i | 0 <= i < |s| :: IndexOf(s[i]) >= 0
  }

  /** Letter and IndexOf against the alphabet as the source writes it. */
  lemma AlphabetLetters(d: nat, c: char)
    requires d < 62
    ensures |ALPHABET| == 62 && Letter(d) == ALPHABET[d]
    ensures IndexOf(c) >= 0 <==> c in ALPHABET
  {
    assert |ALPHABET| == 62 && forall k: nat | k < 62 :: ALPHABET[k] == Letter(k) by {
      var digits, upper, lower := "0123456789", "ABCDEFGHIJKLMNOPQRSTUVWXYZ", "abcdefghijklmnopqrstuvwxyz";
      assert forall k: nat | k < 10 :: digits[k] == Letter(k);
      assert forall k: nat | k < 26 :: upper[k] == Letter(k + 10);
      assert forall k: nat | k < 26 :: lower[k] == Letter(k + 36);
      forall k: nat | k < 62 ensures ALPHABET[k] == Letter(k) {
        assert k < 10 ==> ALPHABET[k] == digits[k];
        assert 10 <= k < 36 ==> ALPHABET[k] == upper[k - 10] == Letter(k - 10 + 10);
        assert 36 <= k ==> ALPHABET[k] == lower[k - 36] == Letter(k - 36 + 36);
      }
    }
    if IndexOf(c) >= 0 {
      assert ALPHABET[IndexOf(c)] == c;
    }
  }

  lemma LetterOrder(a: nat, b: nat)
    requires a < b < 62
    ensures Letter(a) < Letter(b)
  {
  }

  lemma IndexOfLetter(d: nat)
    requires d < 62
    ensures IndexOf(Letter(d)) == d
  {
  }

  /** Base 62 digits of n, most significant first, none for zero. */
  function Digits(n: nat): (s: string)
    ensures s == "" <==> n == 0
  {
    if n == 0 then "" else Digits(n / 62) + [Letter(n % 62)]
  }

  /** The number that a digit string denotes, without any bound on its size. */
  function Value(s: string): nat
    requires OverAlphabet(s)
  {
    if s == "" then 0 else Value(s[..|s| - 1]) * 62 + IndexOf(s[|s| - 1])
  }

  function Pow62(k: nat): (p: nat)
    ensures p >= 1
  {
    if k == 0 then 1 else 62 * Pow62(k - 1)
  }

  lemma DivMod62(q: nat, d: nat)
    requires d < 62
    ensures (q * 62 + d) / 62 == q && (q * 62 + d) % 62 == d
  {
  }

  lemma AppendDigit(q: nat, d: nat)
    requires d < 62 && q + d > 0
    ensures Digits(q * 62 + d) == Digits(q) + [Letter(d)]
  {
    hide Letter;
    DivMod62(q, d);
  }

  lemma LastDigit(s: string)
    requires OverAlphabet(s) && s != ""
    ensures var init, d := s[..|s| - 1], IndexOf(s[|s| - 1]);
            && OverAlphabet(init) && 0 <= d < 62 && s == init + [Letter(d)]
            && Value(s) == Value(init) * 62 + d
  {
    hide IndexOf, Letter;
  }

  lemma ZeroLetter(d: nat)
    requires d < 62
    ensures Letter(d) == '0' <==> d == 0
  {
  }

  lemma SnocDigit(s: string, d: nat)
    requires OverAlphabet(s) && d < 62
    ensures OverAlphabet(s + [Letter(d)]) && Value(s + [Letter(d)]) == Value(s) * 62 + d
  {
    hide IndexOf, Letter;
    IndexOfLetter(d);
    assert (s + [Letter(d)])[..|s|] == s;
  }

  lemma {:induction false} ValueOfDigits(n: nat)
    ensures OverAlphabet(Digits(n)) && Value(Digits(n)) == n
    ensures n > 0 ==> Digits(n)[0] != '0'
  {
    if n > 0 {
      var q, d := n / 62, n % 62;
      ValueOfDigits(q);
      AppendDigit(q, d);
      hide Digits, Value, OverAlphabet, IndexOf, Letter;
      SnocDigit(Digits(q), d);
      ZeroLetter(d);
    }
  }

  lemma {:induction false} DigitsOfValue(s: string)
    requires OverAlphabet(s) && s != "" && s[0] != '0'
    ensures Value(s) > 0 && Digits(Value(s)) == s
  {
    hide Digits, OverAlphabet, IndexOf, Letter;
    var init, d := s[..|s| - 1], IndexOf(s[|s| - 1]);
    LastDigit(s);
    ZeroLetter(d);
    if init != "" {
      hide Value;
      assert init[0] == s[0];
      DigitsOfValue(init);
    }
    AppendDigit(Value(init), d);
  }

  /** Length of a digit string counts powers of 62 exactly. */
  lemma {:induction false} DigitCount(n: nat, k: nat)
    ensures |Digits(n)| <= k <==> n < Pow62(k)
  {
    if n > 0 && k > 0 {
      DigitCount(n / 62, k - 1);
    }
  }

  // ----- Wrapping -----------------------------------------------------------------------------

  /** What a uint64 keeps of a number. */
  function Wrap(n: nat): uint64 { n % TWO_64 }

  /** The wrapped sum that Encode writes out. */
  function Sum(id: uint64): uint64 { Wrap(id + OFFSET) }

  lemma WrapOnce(n: nat)
    requires n < 2 * TWO_64
    ensures Wrap(n) == if n < TWO_64 then n else n - TWO_64
  {
  }

  lemma {:induction false} WrapMultiple(q: nat, r: nat)
    ensures Wrap(q * TWO_64 + r) == Wrap(r)
  {
    if q > 0 {
      WrapMultiple(q - 1, r);
      assert q * TWO_64 + r == (q - 1) * TWO_64 + r + TWO_64;
      AddModulus((q - 1) * TWO_64 + r);
    }
  }

  lemma AddModulus(x: nat)
    ensures Wrap(x + TWO_64) == Wrap(x)
  {
  }

  lemma WrapSplit(v: nat) returns (q: nat)
    ensures v == q * TWO_64 + Wrap(v)
  {
    q := v / TWO_64;
  }

  lemma WrapStep(v: nat, d: nat)
    ensures Wrap(Wrap(v) * 62 + d) == Wrap(v * 62 + d)
  {
    hide Wrap;
    var q := WrapSplit(v);
    var r := Wrap(v) * 62 + d;
    assert v * 62 + d == q * 62 * TWO_64 + r;
    WrapMultiple(q * 62, r);
  }

  // ----- Encode -------------------------------------------------------------------------------

  /** What Encode returns: the digits of the wrapped sum, with a single '0' for a sum that wraps to zero. */
  function Encoded(id: uint64): (s: string)
    ensures s != ""
  {
    if Sum(id) == 0 then "0" else Digits(Sum(id))
  }

  /** The fixed 16-byte buffer is filled backwards; its index never drops below 5. */
  method Encode(id: uint64) returns (s: string)
    ensures s == Encoded(id)
  {
    hide Wrap, Digits, Pow62, Letter;
    var n: nat := (id + OFFSET) % TWO_64;
    assert n == Sum(id) by { UnfoldSum(id); }
    NoDigits();
    if n == 0 {
      return [Letter(0)];
    }
    var buf := new char[16];
    var pos := buf.Length;
    PowersOf62();
    while n > 0
      invariant 5 <= pos <= 16
      invariant n < Pow62(pos - 5)
      invariant Digits(Sum(id)) == Digits(n) + buf[pos..]
    {
      LeadingDigit(n, pos - 5);
      pos := pos - 1;
      ghost var tail := buf[pos + 1..];
      buf[pos] := Letter(n % 62);
      assert buf[pos..] == [Letter(n % 62)] + tail;
      n := n / 62;
    }
    s := buf[pos..];
    assert Digits(Sum(id)) == s;
  }

  lemma UnfoldSum(id: uint64)
    ensures Sum(id) == (id + OFFSET) % TWO_64
  {
  }

  lemma NoDigits()
    ensures Digits(0) == "" && Pow62(0) == 1 && Letter(0) == '0'
  {
  }

  lemma LeadingDigit(n: nat, k: nat)
    requires 0 < n < Pow62(k)
    ensures Digits(n) == Digits(n / 62) + [Letter(n % 62)]
    ensures k > 0 && n / 62 < Pow62(k - 1)
  {
    hide Letter;
  }

  lemma PowersOf62()
    ensures Pow62(6) == OFFSET
    ensures Pow62(7) == OFFSET + FIRST_LONG_ID
    ensures Pow62(10) < TWO_64 < Pow62(11)
  {
    assert Pow62(2) == 3844;
    assert Pow62(4) == 3844 * 3844;
    assert Pow62(6) == 3844 * 3844 * 3844;
    assert Pow62(8) == 3844 * 3844 * 3844 * 3844;
    assert Pow62(10) == 3844 * 3844 * 3844 * 3844 * 3844;
  }

  // ----- Decode -------------------------------------------------------------------------------

  /** What Decode returns: characters are checked first, the sum wraps, and the offset must fit. */
  function Decoded(s: string): Result<uint64, DecodeError>
  {
    if s == "" then Err(EmptyString)
    else if !OverAlphabet(s) then Err(InvalidCharacter)
    else
      var n := Wrap(Value(s));
      if n < OFFSET then Err(Underflow) else Ok(n - OFFSET)
  }

  method Decode(s: string) returns (r: Result<uint64, DecodeError>)
    ensures r == Decoded(s)
  {
    hide Value, IndexOf, Letter;
    if s == "" {
      return Err(EmptyString);
    }
    var n: uint64 := 0;
    NoValue(s);
    for i := 0 to |s|
      invariant OverAlphabet(s[..i])
      invariant n == Wrap(Value(s[..i]))
    {
      var idx := IndexOf(s[i]);
      if idx < 0 {
        return Err(InvalidCharacter);
      }
      NextDigit(s, i);
      n := (n * 62 + idx) % TWO_64;
    }
    assert s[..|s|] == s;
    if n < OFFSET {
      return Err(Underflow);
    }
    return Ok(n - OFFSET);
  }

  lemma NoValue(s: string)
    ensures OverAlphabet(s[..0]) && Wrap(Value(s[..0])) == 0
  {
  }

  lemma NextDigit(s: string, i: nat)
    requires i < |s| && OverAlphabet(s[..i]) && IndexOf(s[i]) >= 0
    ensures OverAlphabet(s[..i + 1])
    ensures Wrap(Value(s[..i + 1])) == (Wrap(Value(s[..i])) * 62 + IndexOf(s[i])) % TWO_64
  {
    hide Value, IndexOf, Letter, Wrap;
    var d := IndexOf(s[i]);
    assert s[..i + 1] == s[..i] + [Letter(d)];
    SnocDigit(s[..i], d);
    WrapStep(Value(s[..i]), d);
    assert Wrap(Wrap(Value(s[..i])) * 62 + d) == (Wrap(Value(s[..i])) * 62 + d) % TWO_64 by {
      UnfoldWrap(Wrap(Value(s[..i])) * 62 + d);
    }
  }

  lemma UnfoldWrap(n: nat)
    ensures Wrap(n) == n % TWO_64
  {
  }

  // ----- Round trips --------------------------------------------------------------------------

  lemma EncodedOverAlphabet(id: uint64)
    ensures OverAlphabet(Encoded(id)) && Value(Encoded(id)) == Sum(id) == Wrap(Value(Encoded(id)))
    ensures Sum(id) == if id < TWO_64 - OFFSET then id + OFFSET else id + OFFSET - TWO_64
    ensures Sum(id) > 0 ==> Encoded(id)[0] != '0'
  {
    WrapOnce(id + OFFSET);
    hide Wrap, Digits, Letter, OverAlphabet, IndexOf, Value;
    ValueOfDigits(Sum(id));
    WrapOnce(Sum(id));
    ZeroAlone();
  }

  lemma ZeroAlone()
    ensures OverAlphabet("0") && Value("0") == 0
  {
    assert "0"[..0] == "";
  }

  /** Decoding an encoded id gives the id back exactly when the offset addition did not wrap. */
  lemma DecodeAfterEncode(id: uint64)
    ensures Decoded(Encoded(id)) == if id < TWO_64 - OFFSET then Ok(id) else Err(Underflow)
  {
    hide Wrap, Encoded, OverAlphabet, Value, Sum;
    EncodedOverAlphabet(id);
  }

  predicate Canonical(s: string) {
    s != "" && OverAlphabet(s) && s[0] != '0' && OFFSET <= Value(s) < TWO_64
  }

  lemma CanonicalSurvives(s: string)
    requires Canonical(s)
    ensures Decoded(s) == Ok(Value(s) - OFFSET) && Encoded(Value(s) - OFFSET) == s
  {
    hide Wrap, OverAlphabet, Value, Digits;
    DigitsOfValue(s);
    WrapOnce(Value(s));
  }

  lemma EncodedIsCanonical(id: uint64)
    requires Decoded(Encoded(id)) == Ok(id)
    ensures Canonical(Encoded(id))
  {
    hide Wrap, Encoded, Decoded, OverAlphabet, Value, Sum;
    DecodeAfterEncode(id);
    EncodedOverAlphabet(id);
  }

  /** The strings that survive Decode then Encode: no leading zero, and a value between the offset and 2^64. */
  lemma EncodeAfterDecode(s: string)
    ensures (Decoded(s).Ok? && Encoded(Decoded(s).value) == s) <==> Canonical(s)
  {
    hide Encoded, Decoded, Canonical;
    if Canonical(s) {
      CanonicalSurvives(s);
    } else if Decoded(s).Ok? && Encoded(Decoded(s).value) == s {
      EncodedIsCanonical(Decoded(s).value);
    }
  }

  /** No two ids share a link, wrapped ones included: what lets a cached hash name a single row. */
  lemma EncodedInjective(a: uint64, b: uint64)
    ensures Encoded(a) == Encoded(b) <==> a == b
  {
    hide Wrap, Encoded, OverAlphabet, Value, Sum;
    EncodedOverAlphabet(a);
    EncodedOverAlphabet(b);
  }

  // ----- Length and order ---------------------------------------------------------------------

  /** The redirect route's pattern: exactly seven letters or digits. */
  predicate RoutePattern(s: string) {
    |s| == 7 && forall i | 0 <= i < 7 :: '0' <= s[i] <= '9' || 'a' <= s[i] <= 'z' || 'A' <= s[i] <= 'Z'
  }

  /** Links reach the redirect route exactly below FIRST_LONG_ID. */
  lemma RoutableIds(id: uint64)
    ensures RoutePattern(Encoded(id)) <==> id < FIRST_LONG_ID
  {
    hide Wrap, Digits, Pow62, Value;
    PowersOf62();
    DigitCount(Sum(id), 6);
    DigitCount(Sum(id), 7);
    EncodedOverAlphabet(id);
  }

  /** Links fit the VARCHAR(10) column exactly when the digit value is below 62^10, and never exceed 11 characters. */
  lemma ColumnWidth(id: uint64)
    ensures |Encoded(id)| <= 10 <==> Sum(id) < Pow62(10)
    ensures |Encoded(id)| <= 11
  {
    hide Wrap, Digits, Pow62;
    PowersOf62();
    DigitCount(Sum(id), 10);
    DigitCount(Sum(id), 11);
  }

  predicate FirstDifference(a: string, b: string, i: nat) {
    i < |a| && i < |b| && a[..i] == b[..i] && a[i] < b[i]
  }

  /** Shorter first, then character by character. */
  ghost predicate ShortLex(a: string, b: string) {
    |a| < |b| || (|a| == |b| && exists i: nat :: FirstDifference(a, b, i))
  }

  lemma AgreeBelow(a: string, b: string, i: nat, k: nat)
    requires FirstDifference(a, b, i) && k < i
    ensures a[k] == b[k]
  {
    assert a[k] == a[..i][k];
    assert b[k] == b[..i][k];
  }

  lemma ShortLexAsymmetric(a: string, b: string)
    requires ShortLex(a, b)
    ensures !ShortLex(b, a)
  {
    if |a| == |b| {
      var i: nat :| FirstDifference(a, b, i);
      forall j: nat ensures !FirstDifference(b, a, j) {
        if FirstDifference(b, a, j) {
          if i < j {
            AgreeBelow(b, a, j, i);
          } else if j < i {
            AgreeBelow(a, b, i, j);
          }
        }
      }
    }
  }

  lemma {:induction false} DigitsMonotone(m: nat, n: nat)
    requires m < n
    ensures ShortLex(Digits(m), Digits(n))
  {
    var a, b := Digits(m), Digits(n);
    DigitCount(n, |b|);
    DigitCount(m, |b|);
    if |a| == |b| {
      assert m > 0;
      var last := |a| - 1;
      assert a[..last] == Digits(m / 62) && b[..last] == Digits(n / 62);
      if m / 62 == n / 62 {
        LetterOrder(m % 62, n % 62);
        assert FirstDifference(a, b, last);
      } else {
        DigitsMonotone(m / 62, n / 62);
        var i: nat :| FirstDifference(a[..last], b[..last], i);
        assert a[..i] == a[..last][..i] == b[..last][..i] == b[..i];
        assert FirstDifference(a, b, i);
      }
    }
  }

  lemma EncodedBelowWrap(id: uint64)
    requires id < TWO_64 - OFFSET
    ensures Encoded(id) == Digits(id + OFFSET)
  {
    hide Digits, Wrap;
    WrapOnce(id + OFFSET);
  }

  lemma ShortLexIrreflexive(s: string)
    ensures !ShortLex(s, s)
  {
  }

  /** On ids whose offset addition does not wrap, links are ordered as their ids are. */
  lemma EncodedOrder(a: uint64, b: uint64)
    requires a < TWO_64 - OFFSET && b < TWO_64 - OFFSET
    ensures a < b <==> ShortLex(Encoded(a), Encoded(b))
  {
    hide Encoded, Digits, ShortLex;
    EncodedBelowWrap(a);
    EncodedBelowWrap(b);
    if a < b {
      DigitsMonotone(a + OFFSET, b + OFFSET);
    } else if b < a {
      DigitsMonotone(b + OFFSET, a + OFFSET);
      ShortLexAsymmetric(Encoded(b), Encoded(a));
    } else {
      ShortLexIrreflexive(Encoded(a));
    }
  }

  // ----- Collation ----------------------------------------------------------------------------

  function FoldChar(c: char): char {
    if 'A' <= c <= 'Z' then 'a' + (c - 'A') else c
  }

  /** How a case-insensitive collation compares the hash column. */
  function Fold(s: string): (f: string)
    ensures |f| == |s|
  {
    seq(|s|, i requires 0 <= i < |s| => FoldChar(s[i]))
  }

  /** Digits whose letters differ at most in case: equal, or 26 apart among the letters. */
  predicate FoldTogether(x: nat, y: nat) {
    x == y || (10 <= x < 36 && y == x + 26) || (10 <= y < 36 && x == y + 26)
  }

  /** Numbers with equally many base 62 digits, each pair of which folds together. */
  predicate SameFolded(m: nat, n: nat) {
    if m == 0 || n == 0 then m == n else FoldTogether(m % 62, n % 62) && SameFolded(m / 62, n / 62)
  }

  lemma LettersFold(x: nat, y: nat)
    requires x < 62 && y < 62
    ensures FoldChar(Letter(x)) == FoldChar(Letter(y)) <==> FoldTogether(x, y)
  {
  }

  lemma FoldSnoc(s: string, c: char, t: string, d: char)
    ensures Fold(s + [c]) == Fold(t + [d]) <==> Fold(s) == Fold(t) && FoldChar(c) == FoldChar(d)
  {
    hide FoldChar;
    var x, y := Fold(s + [c]), Fold(t + [d]);
    assert x == Fold(s) + [FoldChar(c)] && y == Fold(t) + [FoldChar(d)];
    if x == y {
      assert Fold(s) == x[..|s|] == y[..|t|] == Fold(t);
      assert x[|s|] == y[|t|];
    }
  }

  lemma {:induction false} FoldedDigits(m: nat, n: nat)
    ensures Fold(Digits(m)) == Fold(Digits(n)) <==> SameFolded(m, n)
  {
    hide Fold, FoldChar, FoldTogether, Letter;
    if m == 0 || n == 0 {
      assert |Fold(Digits(m))| == |Digits(m)| && |Fold(Digits(n))| == |Digits(n)|;
    } else {
      FoldedDigits(m / 62, n / 62);
      LettersFold(m % 62, n % 62);
      FoldSnoc(Digits(m / 62), Letter(m % 62), Digits(n / 62), Letter(n % 62));
    }
  }

  lemma FoldOfZero(n: nat)
    requires n > 0
    ensures Fold(Digits(n)) != Fold("0")
  {
    ValueOfDigits(n);
    var s := Digits(n);
    hide Digits, Letter, Value, IndexOf, OverAlphabet;
    assert Fold(s)[0] == FoldChar(s[0]) && Fold("0")[0] == '0';
  }

  /**
   * Injectivity needs a case-sensitive column: two links coincide under case folding exactly when the wrapped sums have
   * equally many digits and each pair of digits is equal or 26 apart among the letters.
   */
  lemma FoldedClash(a: uint64, b: uint64)
    ensures Fold(Encoded(a)) == Fold(Encoded(b)) <==> SameFolded(Sum(a), Sum(b))
  {
    hide Fold, Digits, Wrap;
    if Sum(a) > 0 {
      FoldOfZero(Sum(a));
    }
    if Sum(b) > 0 {
      FoldOfZero(Sum(b));
    }
    FoldedDigits(Sum(a), Sum(b));
  }

  /** For instance the links of ids 10 and 36. */
  lemma CaseFoldingCollides()
    ensures Encoded(10) == "100000A" && Encoded(36) == "100000a"
    ensures Encoded(10) != Encoded(36) && Fold(Encoded(10)) == Fold(Encoded(36))
  {
    hide Digits, Fold, Wrap, Letter;
    EncodedBelowWrap(10);
    EncodedBelowWrap(36);
    OneZeroes();
    AppendDigit(916_132_832, 10);
    AppendDigit(916_132_832, 36);
    LettersFold(10, 36);
    FoldSnoc("100000", Letter(10), "100000", Letter(36));
    assert Letter(10) == 'A' && Letter(36) == 'a' by { TwoLetters(); }
  }

  lemma TwoLetters()
    ensures Letter(10) == 'A' && Letter(36) == 'a'
  {
  }

  lemma OneZeroes()
    ensures Digits(916_132_832) == "100000"
  {
    assert Digits(1) == Digits(0) + [Letter(1)];
    assert Digits(62) == Digits(1) + [Letter(0)];
    assert Digits(3844) == Digits(62) + [Letter(0)];
    assert Digits(238_328) == Digits(3844) + [Letter(0)];
    assert Digits(14_776_336) == Digits(238_328) + [Letter(0)];
    assert Digits(916_132_832) == Digits(14_776_336) + [Letter(0)];
  }
}
