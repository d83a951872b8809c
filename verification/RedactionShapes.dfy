/** The check digits ai/redaction.py accepts a card number or an IBAN by. */
module RedactionShapes {
  import opened Decimal

  // ── Card numbers ──────────────────────────────────────────────────────

  /** What a digit adds: every second one from the right is doubled, with 9 taken off above 9. */
  function Weight(d: nat, index: nat): nat
    requires d < 10
  {
    if index % 2 == 0 then d else if 2 * d > 9 then 2 * d - 9 else 2 * d
  }

  /** The weights of `s`, whose last digit has this index from the right. */
  function LuhnSum(s: string, index: nat): nat
    requires AllDigits(s)
  {
    if s == [] then 0
    else Weight(ValueOfDigit(s[|s| - 1]), index) + LuhnSum(s[..|s| - 1], index + 1)
  }

  predicate Luhn(s: string)
    requires AllDigits(s)
  {
    LuhnSum(s, 0) % 10 == 0
  }

  /** The check as the loop over the reversed digits makes it. */
  method CheckLuhn(s: string) returns (ok: bool)
    requires AllDigits(s)
    ensures ok == Luhn(s)
  {
    var total := 0;
    assert s[..|s|] == s;
    for index := 0 to |s|
      invariant total + LuhnSum(s[..|s| - index], index) == LuhnSum(s, 0)
    {
      var rest := s[..|s| - index];
      assert rest[..|rest| - 1] == s[..|s| - (index + 1)];
      var number := ValueOfDigit(s[|s| - 1 - index]);
      if index % 2 != 0 {
        number := number * 2;
        if number > 9 {
          number := number - 9;
        }
      }
      total := total + number;
    }
    assert s[..|s|] == s;
    ok := total % 10 == 0;
  }

  /** Changing one digit changes the sum by the change of its own weight. */
  lemma {:induction false} OneDigitChanged(s: string, index: nat, k: nat, c: char)
    requires AllDigits(s) && k < |s| && IsDigit(c)
    ensures AllDigits(s[k := c])
    ensures LuhnSum(s[k := c], index) + Weight(ValueOfDigit(s[k]), index + |s| - 1 - k)
              == LuhnSum(s, index) + Weight(ValueOfDigit(c), index + |s| - 1 - k)
    decreases |s|
  {
    var t := s[k := c];
    if k < |s| - 1 {
      OneDigitChanged(s[..|s| - 1], index + 1, k, c);
      assert t[..|t| - 1] == s[..|s| - 1][k := c];
    } else {
      assert t[..|t| - 1] == s[..|s| - 1];
    }
  }

  lemma WeightsDiffer(d: nat, e: nat, index: nat)
    requires d < 10 && e < 10
    ensures Weight(d, index) < 10
    ensures Weight(d, index) == Weight(e, index) <==> d == e
  {
  }

  /** No single wrong digit passes. */
  lemma OneWrongDigitIsCaught(s: string, k: nat, c: char)
    requires AllDigits(s) && Luhn(s) && k < |s| && IsDigit(c) && c != s[k]
    ensures AllDigits(s[k := c]) && !Luhn(s[k := c])
  {
    OneDigitChanged(s, 0, k, c);
    hide Weight, LuhnSum;
    WeightsDiffer(ValueOfDigit(s[k]), ValueOfDigit(c), |s| - 1 - k);
    WeightsDiffer(ValueOfDigit(c), ValueOfDigit(s[k]), |s| - 1 - k);
    assert DigitOf(ValueOfDigit(c)) == c && DigitOf(ValueOfDigit(s[k])) == s[k];
    TensApart(LuhnSum(s, 0), LuhnSum(s[k := c], 0),
              Weight(ValueOfDigit(s[k]), |s| - 1 - k), Weight(ValueOfDigit(c), |s| - 1 - k));
  }

  lemma TensApart(x: nat, y: nat, d: nat, e: nat)
    requires x % 10 == 0 && d < 10 && e < 10 && y + d == x + e
    ensures y % 10 == 0 <==> d == e
  {
  }

  lemma MovedByTens(x: nat, y: nat, change: int)
    requires x % 10 == 0 && y == x + change
    ensures y % 10 == 0 <==> change % 10 == 0
  {
  }

  /** Two neighbours exchanged pass only when they are equal, or are 0 and 9. */
  lemma ExchangedNeighboursPassExactlyWhen(s: string, k: nat)
    requires AllDigits(s) && Luhn(s) && k + 1 < |s|
    ensures AllDigits(s[k := s[k + 1]][k + 1 := s[k]])
    ensures Luhn(s[k := s[k + 1]][k + 1 := s[k]]) <==> s[k] == s[k + 1] || {s[k], s[k + 1]} == {'0', '9'}
  {
    hide Weight, LuhnSum, ValueOfDigit, DigitOf, IsDigit;
    ExchangedSums(s, k);
    var a, b := ValueOfDigit(s[k]), ValueOfDigit(s[k + 1]);
    Exchange(LuhnSum(s, 0), LuhnSum(s[k := s[k + 1]][k + 1 := s[k]], 0), a, b, |s| - 2 - k);
    SameSet(s[k], s[k + 1]);
  }

  lemma ExchangedSums(s: string, k: nat)
    requires AllDigits(s) && k + 1 < |s|
    ensures var u := s[k := s[k + 1]][k + 1 := s[k]];
            var a, b := ValueOfDigit(s[k]), ValueOfDigit(s[k + 1]);
            && AllDigits(u)
            && LuhnSum(u, 0) + Weight(a, |s| - 1 - k) + Weight(b, |s| - 2 - k)
               == LuhnSum(s, 0) + Weight(b, |s| - 1 - k) + Weight(a, |s| - 2 - k)
            && s[k] == DigitOf(a) && s[k + 1] == DigitOf(b)
            && (a == 0 <==> s[k] == '0') && (a == 9 <==> s[k] == '9')
            && (b == 0 <==> s[k + 1] == '0') && (b == 9 <==> s[k + 1] == '9')
  {
    hide Weight, LuhnSum;
    OneDigitChanged(s, 0, k, s[k + 1]);
    OneDigitChanged(s[k := s[k + 1]], 0, k + 1, s[k]);
  }

  lemma Exchange(x: nat, y: nat, a: nat, b: nat, near: nat)
    requires a < 10 && b < 10 && x % 10 == 0
    requires y + Weight(a, near + 1) + Weight(b, near) == x + Weight(b, near + 1) + Weight(a, near)
    ensures y % 10 == 0 <==> a == b || (a == 0 && b == 9) || (a == 9 && b == 0)
  {
    hide Weight;
    WeightsExchanged(a, b, near);
    MovedByTens(x, y, Weight(b, near + 1) + Weight(a, near) - Weight(a, near + 1) - Weight(b, near));
  }

  lemma SameSet(x: char, y: char)
    ensures {x, y} == {'0', '9'} <==> (x == '0' && y == '9') || (x == '9' && y == '0')
  {
    if {x, y} == {'0', '9'} {
      assert x in {'0', '9'} && y in {'0', '9'} && '0' in {x, y} && '9' in {x, y};
    }
  }

  lemma WeightsExchanged(a: nat, b: nat, near: nat)
    requires a < 10 && b < 10
    ensures (Weight(b, near + 1) + Weight(a, near) - Weight(a, near + 1) - Weight(b, near)) % 10 == 0 <==>
              a == b || (a == 0 && b == 9) || (a == 9 && b == 0)
  {
  }

  // ── IBANs ─────────────────────────────────────────────────────────────

  predicate IsAlnum(c: char) { 'A' <= c <= 'Z' || IsDigit(c) }

  function Compact(s: string): string {
    if s == [] then [] else (if s[0] == ' ' then [] else [s[0]]) + Compact(s[1..])
  }

  /** The number read off the characters, letters as 10 to 35. */
  function AsNumber(s: string): nat {
    if s == [] then 0
    else
      var c, before := s[|s| - 1], AsNumber(s[..|s| - 1]);
      if IsDigit(c) then before * 10 + ValueOfDigit(c)
      else if 'A' <= c <= 'Z' then before * 100 + ((c - 'A') as nat + 10)
      else before
  }

  predicate IsIban(s: string) {
    var compact := Compact(s);
    15 <= |compact| <= 34 && AsNumber(compact[4..] + compact[..4]) % 97 == 1
  }

  /** Only spaces are left out. */
  lemma {:induction false} OnlySpacesAreLeftOut(s: string)
    ensures ' ' !in Compact(s) && (' ' !in s ==> Compact(s) == s)
  {
    if s != [] {
      OnlySpacesAreLeftOut(s[1..]);
      assert s == [s[0]] + s[1..];
    }
  }

  lemma Associates(a: string, b: string, c: string)
    ensures a + b + c == a + (b + c)
  {
  }

  /** And nothing changes place. */
  lemma {:induction false} CompactingJoins(s: string, t: string)
    ensures Compact(s + t) == Compact(s) + Compact(t)
  {
    if s == [] {
      assert s + t == t;
    } else {
      CompactingJoins(s[1..], t);
      CompactingGoesOn(s);
      CompactingGoesOn(s + t);
      hide Compact;
      Associates(Compact([s[0]]), Compact(s[1..]), Compact(t));
      assert (s + t)[1..] == s[1..] + t;
    }
  }

  lemma CompactingGoesOn(s: string)
    requires s != []
    ensures Compact(s) == Compact([s[0]]) + Compact(s[1..])
  {
  }

  /** The country and its check digits, read after the rest, leave 1 when divided by 97. */
  lemma IbanExactlyWhen(s: string, country: string, rest: string)
    requires Compact(s) == country + rest && |country| == 4
    ensures IsIban(s) <==> 11 <= |rest| <= 30 && AsNumber(rest + country) % 97 == 1
  {
    assert (country + rest)[4..] == rest && (country + rest)[..4] == country;
  }

  /** What the number before a character, or a part of it, counts for once the character follows. */
  function Grown(c: char, n: int): int {
    if IsDigit(c) then 10 * n else if 'A' <= c <= 'Z' then 100 * n else n
  }

  /** What one more at the digit in place `k` adds to the number. */
  function Place(s: string, k: nat): nat
    requires k < |s|
    decreases |s|
  {
    if k == |s| - 1 then 1 else Grown(s[|s| - 1], Place(s[..|s| - 1], k))
  }

  lemma {:induction false} PlaceIsNoMultiple(s: string, k: nat)
    requires k < |s|
    ensures Place(s, k) % 97 != 0
    decreases |s|
  {
    if k < |s| - 1 {
      var before := Place(s[..|s| - 1], k);
      PlaceIsNoMultiple(s[..|s| - 1], k);
      TenTimes(before);
      TenTimes(10 * before);
    }
  }

  lemma TenTimes(n: nat)
    requires n % 97 != 0
    ensures 10 * n % 97 != 0
  {
    NinetySevenIsPrime(2, n);
    NinetySevenIsPrime(5, 2 * n);
    assert 5 * (2 * n) == 10 * n;
  }

  /** Each character goes on from the number before it: a digit by its value, a letter by two digits from 10 for A. */
  lemma NumbersGoOn(s: string, c: char)
    ensures IsDigit(c) ==> AsNumber(s + [c]) == 10 * AsNumber(s) + (c - '0') as nat
    ensures 'A' <= c <= 'Z' ==> AsNumber(s + [c]) == 100 * AsNumber(s) + (c - 'A') as nat + 10
    ensures AsNumber("") == 0
  {
    assert (s + [c])[..|s|] == s;
  }

  lemma SameLastCharacter(s: string, t: string)
    requires s != [] && t != [] && s[|s| - 1] == t[|t| - 1]
    ensures AsNumber(t) - AsNumber(s) == Grown(s[|s| - 1], AsNumber(t[..|t| - 1]) - AsNumber(s[..|s| - 1]))
  {
    hide AsNumber, Grown, Worth;
    LastCharacter(s);
    LastCharacter(t);
    GrownApart(s[|s| - 1], AsNumber(t[..|t| - 1]), AsNumber(s[..|s| - 1]));
  }

  lemma GrownApart(c: char, m: int, n: int)
    ensures Grown(c, m - n) == Grown(c, m) - Grown(c, n)
  {
  }

  function Worth(c: char): nat {
    if IsDigit(c) then ValueOfDigit(c) else if 'A' <= c <= 'Z' then (c - 'A') as nat + 10 else 0
  }

  lemma LastCharacter(s: string)
    requires s != []
    ensures AsNumber(s) == Grown(s[|s| - 1], AsNumber(s[..|s| - 1])) + Worth(s[|s| - 1])
  {
  }

  lemma {:induction false} OneDigitOfTheNumberChanged(s: string, k: nat, c: char)
    requires k < |s| && IsDigit(s[k]) && IsDigit(c)
    ensures AsNumber(s[k := c]) - AsNumber(s) == (ValueOfDigit(c) - ValueOfDigit(s[k])) * Place(s, k)
    decreases |s|
  {
    var t, last := s[k := c], |s| - 1;
    if k == last {
      assert t[..last] == s[..last];
    } else {
      hide AsNumber, Grown, ValueOfDigit, IsDigit;
      OneDigitOfTheNumberChanged(s[..last], k, c);
      assert t[..last] == s[..last][k := c];
      SameLastCharacter(s, t);
      GrownTogether(s[last], ValueOfDigit(c) - ValueOfDigit(s[k]), Place(s[..last], k));
    }
  }

  lemma GrownTogether(c: char, d: int, n: int)
    ensures Grown(c, d * n) == d * Grown(c, n)
  {
    Regroup(10, d, n);
    Regroup(100, d, n);
  }

  lemma Regroup(x: int, y: int, z: int)
    ensures x * (y * z) == y * (x * z)
  {
  }

  lemma NinetySevenIsPrime(d: int, p: nat)
    requires -10 < d < 10 && p % 97 != 0
    ensures d * p % 97 == 0 <==> d == 0
  {
    var q, r := p / 97, p % 97;
    Distributes(d, q, r);
    ManyMore(d * q, d * r);
    SmallMultiples(d, r);
  }

  lemma Distributes(d: int, q: int, r: int)
    ensures d * (97 * q + r) == 97 * (d * q) + d * r
  {
  }

  lemma ManyMore(x: int, y: int)
    ensures (97 * x + y) % 97 == y % 97
  {
  }

  lemma SmallMultiples(d: int, r: nat)
    requires -10 < d < 10 && 0 < r < 97
    ensures d * r % 97 == 0 <==> d == 0
  {
    if d < 0 {
      assert d in {-1, -2, -3, -4, -5, -6, -7, -8, -9};
    } else if d > 0 {
      assert d in {1, 2, 3, 4, 5, 6, 7, 8, 9};
    }
  }

  /** No single wrong digit of an IBAN passes. */
  lemma OneWrongDigitIsNoIban(country: string, rest: string, k: nat, c: char)
    requires ' ' !in country && ' ' !in rest && |country| == 4 && IsIban(country + rest)
    requires k < |rest| && IsDigit(rest[k]) && IsDigit(c) && c != rest[k]
    ensures !IsIban(country + rest[k := c])
  {
    hide IsIban, Compact, AsNumber, Place;
    WithoutSpaces(country, rest);
    WithoutSpaces(country, rest[k := c]);
    var s := rest + country;
    assert rest[k := c] + country == s[k := c];
    OneDigitOfTheNumberChanged(s, k, c);
    PlaceIsNoMultiple(s, k);
    DifferentDigits(c, s[k]);
    NinetySevenIsPrime(ValueOfDigit(c) - ValueOfDigit(s[k]), Place(s, k));
    SameRemainder(AsNumber(s[k := c]), AsNumber(s));
  }

  lemma DifferentDigits(c: char, d: char)
    requires IsDigit(c) && IsDigit(d) && c != d
    ensures ValueOfDigit(c) != ValueOfDigit(d)
  {
    assert DigitOf(ValueOfDigit(c)) == c && DigitOf(ValueOfDigit(d)) == d;
  }

  lemma SameRemainder(x: nat, y: nat)
    ensures x % 97 == y % 97 <==> (x - y) % 97 == 0
  {
  }

  lemma WithoutSpaces(country: string, rest: string)
    requires ' ' !in country && ' ' !in rest && |country| == 4
    ensures IsIban(country + rest) <==> 11 <= |rest| <= 30 && AsNumber(rest + country) % 97 == 1
  {
    hide IsIban, Compact, AsNumber;
    OnlySpacesAreLeftOut(country + rest);
    IbanExactlyWhen(country + rest, country, rest);
  }

  /** The first `end` characters are an IBAN that ends where a word does. */
  predicate EndsAnIban(s: string, end: nat)
    requires end <= |s|
  {
    && end >= 15
    && s[end - 1] != ' '
    && (end < |s| ==> !('A' <= s[end] <= 'Z' || '0' <= s[end] <= '9'))
    && IsIban(s[..end])
  }

  /** How much of a candidate, from its start, is a valid IBAN: the longest such beginning, or none. */
  method IbanLength(s: string) returns (length: nat)
    requires forall c | c in s :: 'A' <= c <= 'Z' || '0' <= c <= '9' || c == ' '
    ensures length <= |s|
    ensures length > 0 ==> EndsAnIban(s, length)
    ensures forall end | length < end <= |s| :: !EndsAnIban(s, end)
  {
    var end: nat := |s|;
    while end > 14
      invariant end <= |s|
      invariant forall e: nat | end < e <= |s| :: !EndsAnIban(s, e)
    {
      var prefix := s[..end];
      if !(prefix[|prefix| - 1] == ' ' || (end < |s| && IsAlnum(s[end]))) {
        if IsIban(prefix) {
          return end;
        }
      }
      end := end - 1;
    }
    length := 0;
  }
}
