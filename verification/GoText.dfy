/** The pieces of Go's string handling the model needs. A Go string is a `string`: its elements stand
    for bytes where lengths matter, and for characters where case does. */
module GoText {

  const MAX_INT: int := 0x7FFF_FFFF_FFFF_FFFF
  const MIN_INT: int := -0x8000_0000_0000_0000
  const MAX_UINT: int := 0xFFFF_FFFF_FFFF_FFFF

  predicate IsDigit(c: char) { '0' <= c <= '9' }

  predicate AllDigits(s: string) { forall c | c in s :: IsDigit(c) }

  function DigitChar(d: nat): (c: char)
    requires d < 10
    ensures IsDigit(c)
  {
    '0' + (d as char)
  }

  function DigitValue(c: char): nat
    requires IsDigit(c)
  {
    (c as int) - ('0' as int)
  }

  /** `fmt`'s %d of a non-negative number. */
  function Itoa(n: nat): (s: string)
    ensures |s| > 0 && AllDigits(s)
  {
    if n < 10 then [DigitChar(n)] else Itoa(n / 10) + [DigitChar(n % 10)]
  }

  datatype Scanned = Syntax | Range | Number(n: nat)

  /** One step of `strconv.ParseUint` in base 10: a wrong digit or an overflow ends the scan. */
  function ScanStep(acc: Scanned, c: char): Scanned {
    if !acc.Number? then acc
    else if !IsDigit(c) then Syntax
    else if 10 * acc.n + DigitValue(c) > MAX_UINT then Range
    else Number(10 * acc.n + DigitValue(c))
  }

  function Scan(s: string): Scanned {
    if s == [] then Number(0) else ScanStep(Scan(s[..|s| - 1]), s[|s| - 1])
  }

  /** The value part of `strconv.Atoi`, whose error the callers discard: 0 on a syntax error, the
      nearest 64-bit bound on overflow. */
  function Atoi(s: string): (r: int)
    ensures MIN_INT <= r <= MAX_INT
  {
    if s == "" then 0
    else
      var neg := s[0] == '-';
      var digits := if neg || s[0] == '+' then s[1..] else s;
      if digits == "" then 0
      else match Scan(digits)
        case Syntax => 0
        case Range => if neg then MIN_INT else MAX_INT
        case Number(n) =>
          var value: int := if neg then 0 - n else n;
          if value < MIN_INT then MIN_INT else if value > MAX_INT then MAX_INT else value
  }

  lemma {:induction false} ScanItoa(n: nat)
    requires n <= MAX_UINT
    ensures Scan(Itoa(n)) == Number(n)
  {
    if n < 10 {
      assert Itoa(n)[..0] == [];
    } else {
      ScanItoa(n / 10);
      assert Itoa(n)[..|Itoa(n)| - 1] == Itoa(n / 10);
    }
  }

  /** Formatting a revision number and parsing it back is the identity. */
  lemma AtoiItoa(n: nat)
    requires n <= MAX_INT
    ensures Atoi(Itoa(n)) == n
  {
    ScanItoa(n);
    assert Itoa(n)[0] in Itoa(n);
  }

  lemma {:induction false} ScanOverflows(n: nat)
    requires n > MAX_UINT
    ensures Scan(Itoa(n)) == Range
  {
    assert Itoa(n)[..|Itoa(n)| - 1] == Itoa(n / 10);
    if n / 10 > MAX_UINT { ScanOverflows(n / 10); } else { ScanItoa(n / 10); }
  }

  function Saturated(n: nat): Scanned { if n <= MAX_UINT then Number(n) else Range }

  lemma ScanSaturates(n: nat)
    ensures Scan(Itoa(n)) == Saturated(n) && '0' <= Itoa(n)[0] <= '9'
  {
    assert Itoa(n)[0] in Itoa(n);
    if n <= MAX_UINT { ScanItoa(n); } else { ScanOverflows(n); }
  }

  /** Every number, with any sign, is parsed to the nearest 64-bit one. */
  lemma AtoiIsNearest(n: nat)
    ensures Atoi(Itoa(n)) == if n <= MAX_INT then n else MAX_INT
    ensures Atoi("+" + Itoa(n)) == if n <= MAX_INT then n else MAX_INT
    ensures if n <= MAX_INT then Atoi("-" + Itoa(n)) + n == 0 else Atoi("-" + Itoa(n)) == MIN_INT
  {
    ScanSaturates(n);
    assert ("+" + Itoa(n))[1..] == Itoa(n) && ("-" + Itoa(n))[1..] == Itoa(n);
  }

  lemma {:induction false} ScanStops(digits: string, rest: string)
    requires Scan(digits) == Syntax
    ensures Scan(digits + rest) == Syntax
  {
    if rest == "" {
      assert digits + rest == digits;
    } else {
      ScanStops(digits, rest[..|rest| - 1]);
      assert (digits + rest)[..|digits + rest| - 1] == digits + rest[..|rest| - 1];
    }
  }

  /** What is not a number is parsed to 0: a text with another character after its digits, or none. */
  lemma AtoiOfOtherText(n: nat, c: char, rest: string)
    requires n <= MAX_UINT && !('0' <= c <= '9')
    ensures Atoi(Itoa(n) + [c] + rest) == 0
    ensures c != '-' && c != '+' ==> Atoi([c] + rest) == 0
    ensures Atoi("") == Atoi("-") == Atoi("+") == 0
  {
    ScanItoa(n);
    assert (Itoa(n) + [c])[..|Itoa(n) + [c]| - 1] == Itoa(n);
    ScanStops(Itoa(n) + [c], rest);
    assert Itoa(n)[0] in Itoa(n) && (Itoa(n) + [c] + rest)[0] == Itoa(n)[0];
    assert [c][..0] == "" && Scan([c]) == Syntax;
    ScanStops([c], rest);
  }

  /** Two decimals followed by a non-digit can only start the same text when they are equal. */
  lemma {:induction false} ItoaPrefixFree(m: nat, n: nat, c: char, restM: string, restN: string)
    requires !IsDigit(c)
    requires Itoa(m) + [c] + restM == Itoa(n) + [c] + restN
    ensures m == n
  {
    var a, b := Itoa(m), Itoa(n);
    var x, y := a + [c] + restM, b + [c] + restN;
    assert x[|a|] == c && y[|b|] == c;
    assert forall i | 0 <= i < |a| :: x[i] == a[i] && IsDigit(x[i]);
    assert forall i | 0 <= i < |b| :: y[i] == b[i] && IsDigit(y[i]);
    assert |a| == |b|;
    assert a == x[..|a|] && b == y[..|b|];
    ItoaInjective(m, n);
  }

  lemma {:induction false} ItoaInjective(m: nat, n: nat)
    requires Itoa(m) == Itoa(n)
    ensures m == n
  {
    var s := Itoa(m);
    if m >= 10 && n >= 10 {
      assert Itoa(m / 10) == s[..|s| - 1] == Itoa(n / 10);
      ItoaInjective(m / 10, n / 10);
      assert s[|s| - 1] == DigitChar(m % 10) == DigitChar(n % 10);
    } else {
      assert m >= 10 ==> |Itoa(m)| > 1;
      assert n >= 10 ==> |Itoa(n)| > 1;
    }
  }

  /** The position of the first `c` in `s`, or the length. */
  function FirstOf(s: string, c: char): (i: nat)
    ensures i <= |s| && (i < |s| ==> s[i] == c) && forall k | 0 <= k < i :: s[k] != c
  {
    if s == "" || s[0] == c then 0
    else
      var i := FirstOf(s[1..], c);
      assert forall k | 0 < k < i + 1 :: s[k] == s[1..][k - 1];
      i + 1
  }

  lemma FirstAfter(s: string, c: char, rest: string)
    requires c !in s
    ensures FirstOf(s + [c] + rest, c) == |s|
  {
    var text, i := s + [c] + rest, FirstOf(s + [c] + rest, c);
    assert text[|s|] == c;
    assert forall k | 0 <= k < |s| :: text[k] == s[k] && s[k] in s;
  }

  /** Go's `<` on strings. */
  predicate Below(a: string, b: string) {
    b != "" && (a == "" || a[0] < b[0] || (a[0] == b[0] && Below(a[1..], b[1..])))
  }

  predicate AtMost(a: string, b: string) { a == b || Below(a, b) }

  lemma {:induction false} BelowIsTotalOrder(a: string, b: string, c: string)
    ensures a == b || Below(a, b) || Below(b, a)
    ensures !(Below(a, b) && Below(b, a)) && !Below(a, a)
    ensures Below(a, b) && Below(b, c) ==> Below(a, c)
    decreases a
  {
    if a != "" {
      BelowIsTotalOrder(a[1..], if b == "" then "" else b[1..], if c == "" then "" else c[1..]);
      if b != "" && a[0] == b[0] && a[1..] == b[1..] {
        assert a == [a[0]] + a[1..] && b == [b[0]] + b[1..];
      }
    }
  }

  /** The order is decided by the first difference, and a proper prefix comes first. */
  lemma {:induction false} BelowAtFirstDifference(p: string, c: char, d: char, x: string, y: string)
    requires c < d
    ensures Below(p + [c] + x, p + [d] + y) && Below(p, p + [c] + x)
    ensures !Below(p + [d] + y, p + [c] + x) && !Below(p + [c] + x, p)
  {
    var a, b := p + [c] + x, p + [d] + y;
    if p != "" {
      BelowAtFirstDifference(p[1..], c, d, x, y);
      assert a[1..] == p[1..] + [c] + x && b[1..] == p[1..] + [d] + y;
    }
  }

  /** `unicode.ToLower` on the characters whose lower case is an ASCII letter; the callers only
      compare the result with ASCII words. */
  function ToLowerChar(c: char): char {
    if 'A' <= c <= 'Z' then c + (32 as char)
    else if c == '\U{0130}' then 'i'
    else if c == '\U{212A}' then 'k'
    else c
  }

  function ToLower(s: string): string { seq(|s|, i requires 0 <= i < |s| => ToLowerChar(s[i])) }

  /** Likewise for `unicode.ToUpper`. */
  function ToUpperChar(c: char): char {
    if 'a' <= c <= 'z' then c - (32 as char)
    else if c == '\U{0131}' then 'I'
    else if c == '\U{017F}' then 'S'
    else c
  }

  function ToUpper(s: string): string { seq(|s|, i requires 0 <= i < |s| => ToUpperChar(s[i])) }

  predicate LowerWord(w: string) { forall c | c in w :: 'a' <= c <= 'z' }

  predicate UpperWord(w: string) { forall c | c in w :: 'A' <= c <= 'Z' }

  /** `s` is the lower-case word `w` with some letters in upper case; a dotted capital I and the Kelvin
      sign count as such. */
  predicate Spells(s: string, w: string) {
    |s| == |w| && forall i | 0 <= i < |s| ::
      || s[i] == w[i] || s[i] as int + 32 == w[i] as int
      || (s[i] == '\U{0130}' && w[i] == 'i') || (s[i] == '\U{212A}' && w[i] == 'k')
  }

  lemma ToLowerIff(s: string, w: string)
    requires LowerWord(w)
    ensures ToLower(s) == w <==> Spells(s, w)
  {
    forall i | 0 <= i < |s| && i < |w|
      ensures ToLower(s)[i] == w[i] <==>
        || s[i] == w[i] || s[i] as int + 32 == w[i] as int
        || (s[i] == '\U{0130}' && w[i] == 'i') || (s[i] == '\U{212A}' && w[i] == 'k')
    {
      assert w[i] in w;
    }
  }

  /** Likewise with some letters of the upper-case word `w` in lower case; a dotless i and a long s count
      as such. */
  predicate SpellsUpper(s: string, w: string) {
    |s| == |w| && forall i | 0 <= i < |s| ::
      || s[i] == w[i] || s[i] as int == w[i] as int + 32
      || (s[i] == '\U{0131}' && w[i] == 'I') || (s[i] == '\U{017F}' && w[i] == 'S')
  }

  lemma ToUpperIff(s: string, w: string)
    requires UpperWord(w)
    ensures ToUpper(s) == w <==> SpellsUpper(s, w)
  {
    forall i | 0 <= i < |s| && i < |w|
      ensures ToUpper(s)[i] == w[i] <==>
        || s[i] == w[i] || s[i] as int == w[i] as int + 32
        || (s[i] == '\U{0131}' && w[i] == 'I') || (s[i] == '\U{017F}' && w[i] == 'S')
    {
      assert w[i] in w;
    }
  }

  /** The least member of a character's simple-folding class that an ASCII word can meet. */
  function FoldChar(c: char): char {
    if 'A' <= c <= 'Z' then c + (32 as char)
    else if c == '\U{017F}' then 's'
    else if c == '\U{212A}' then 'k'
    else c
  }

  /** `strings.EqualFold` against an ASCII word. */
  predicate EqualFold(s: string, word: string) {
    |s| == |word| && forall i | 0 <= i < |s| :: FoldChar(s[i]) == FoldChar(word[i])
  }

  predicate IsLetter(c: char) { 'a' <= c <= 'z' || 'A' <= c <= 'Z' }

  /** The two characters are one ASCII letter in either case. */
  predicate OneLetter(c: char, d: char) {
    IsLetter(c) && IsLetter(d) && (c as int == d as int || c as int + 32 == d as int || c as int == d as int + 32)
  }

  /** `s` is `word` up to the case of ASCII letters. */
  predicate SameUpToCase(s: string, word: string) {
    |s| == |word| && forall i | 0 <= i < |s| :: s[i] == word[i] || OneLetter(s[i], word[i])
  }

  /** Of a word of ASCII letters, folding accepts every mix of cases, and besides only a long s for an s and
      the Kelvin sign for a k. */
  lemma EqualFoldIff(s: string, word: string)
    requires forall c | c in word :: IsLetter(c)
    ensures SameUpToCase(s, word) ==> EqualFold(s, word)
    ensures |s| != |word| ==> !EqualFold(s, word)
    ensures EqualFold(s, word) <==>
            |s| == |word| && forall i | 0 <= i < |s| ::
              || OneLetter(s[i], word[i])
              || (s[i] == '\U{017F}' && (word[i] == 's' || word[i] == 'S'))
              || (s[i] == '\U{212A}' && (word[i] == 'k' || word[i] == 'K'))
  {
    forall i | 0 <= i < |s| && i < |word|
      ensures s[i] == word[i] ==> OneLetter(s[i], word[i])
      ensures FoldChar(s[i]) == FoldChar(word[i]) <==>
              || OneLetter(s[i], word[i])
              || (s[i] == '\U{017F}' && (word[i] == 's' || word[i] == 'S'))
              || (s[i] == '\U{212A}' && (word[i] == 'k' || word[i] == 'K'))
    {
      assert word[i] in word;
    }
  }
}
