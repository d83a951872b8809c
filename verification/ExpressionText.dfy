/**
 From text to tokens (engine/expressions.py). The token pattern is written out for ASCII text:
 its alternatives are tried in order, and each takes the longest match.
 */
module ExpressionText {
  import opened Wrappers
  import opened Json
  import opened Decimal
  import opened Expressions
  import opened ExpressionGrammar

  const MAX_EXPRESSION_LENGTH: nat := 500
  const KEYWORDS: set<string> := {"and", "or", "not", "in", "true", "false", "null"}

  predicate IsSpace(c: char) {
    var n := c as int;
    n == 32 || 9 <= n <= 13 || 28 <= n <= 31
  }

  predicate IsLetter(c: char) {
    'a' <= c <= 'z' || 'A' <= c <= 'Z' || c == '_'
  }

  predicate IsWord(c: char) {
    IsLetter(c) || IsDigit(c)
  }

  predicate Blank(s: string) {
    forall c | c in s :: IsSpace(c)
  }

  function SkipSpace(s: string): (r: string)
    ensures |r| <= |s|
    ensures !Blank(s) ==> r != [] && !IsSpace(r[0])
  {
    if s != [] && IsSpace(s[0]) then SkipSpace(s[1..]) else s
  }

  /** How many characters at the start satisfy `p`. */
  function Run(s: string, p: char -> bool): (n: nat)
    ensures n <= |s|
    ensures forall k | 0 <= k < n :: p(s[k])
    ensures n < |s| ==> !p(s[n])
  {
    if s != [] && p(s[0]) then 1 + Run(s[1..], p) else 0
  }

  type Scanned<T> = Result<(T, string)>

  /** What is left is an end of `s`, and not all of it. */
  predicate Advances<T>(r: Scanned<T>, s: string) {
    r.Ok? ==> |r.value.1| < |s| && r.value.1 == s[|s| - |r.value.1|..]
  }

  function Pow10(n: nat): (p: nat)
    ensures p > 0
  {
    if n == 0 then 1 else 10 * Pow10(n - 1)
  }

  /** How many digits follow a decimal point at the start. */
  function Decimals(s: string): (m: nat)
    ensures m > 0 ==> 1 + m <= |s| && AllDigits(s[1..1 + m])
  {
    if s != [] && s[0] == '.' then Run(s[1..], IsDigit) else 0
  }

  /** \d+(\.\d+)? */
  function Numeral(s: string): (r: Scanned<Value>)
    ensures Advances(r, s)
  {
    var n := Run(s, IsDigit);
    if n == 0 then Err
    else
      var whole, rest := s[..n], s[n..];
      var m := Decimals(rest);
      if m == 0 then Ok((Int(ValueOf(whole)), rest))
      else Ok((Float(ValueOf(whole + rest[1..1 + m]) as real / Pow10(m) as real), rest[1 + m..]))
  }

  function Negated(v: Value): Value {
    match v
    case Int(n) => Int(-n)
    case Float(r) => Float(-r)
    case _ => v
  }

  /** A numeral with or without a sign. */
  function NumberToken(s: string): (r: Scanned<Token>)
    ensures Advances(r, s)
  {
    if s != [] && s[0] == '-' then
      var (v, rest) :- Numeral(s[1..]);
      Ok((Lit(Negated(v)), rest))
    else
      var (v, rest) :- Numeral(s);
      Ok((Lit(v), rest))
  }

  /** Where the closing quote stands: the first one that is not escaped. A line break cannot be escaped. */
  function ClosingQuote(s: string, quote: char): (r: Option<nat>)
    ensures r.Some? ==> r.value < |s|
  {
    if s == [] then None
    else if s[0] == quote then Some(0)
    else if s[0] == '\\' then
      if |s| < 2 || s[1] == '\n' then None
      else
        var end := ClosingQuote(s[2..], quote);
        if end.Some? then Some(end.value + 2) else None
    else
      var end := ClosingQuote(s[1..], quote);
      if end.Some? then Some(end.value + 1) else None
  }

  /** Each backslash is dropped and the character after it kept, unless that is a line break. */
  function Unescape(s: string): string {
    if s == [] then []
    else if s[0] == '\\' && |s| >= 2 && s[1] != '\n' then [s[1]] + Unescape(s[2..])
    else [s[0]] + Unescape(s[1..])
  }

  function StringToken(s: string): (r: Scanned<Token>)
    ensures Advances(r, s)
  {
    if s == [] || (s[0] != '"' && s[0] != '\'') then Err
    else
      var end := ClosingQuote(s[1..], s[0]);
      if end.None? then Err
      else Ok((Lit(Str(Unescape(s[1..1 + end.value]))), s[2 + end.value..]))
  }

  function RelationOf(s: string): Option<Relation> {
    if s == "==" then Some(Eq)
    else if s == "!=" then Some(Ne)
    else if s == "<=" then Some(Le)
    else if s == ">=" then Some(Ge)
    else if s == "<" then Some(Lt)
    else if s == ">" then Some(Gt)
    else None
  }

  function OperatorToken(s: string): (r: Scanned<Token>)
    ensures Advances(r, s)
  {
    if |s| >= 2 && RelationOf(s[..2]).Some? then Ok((Op(RelationOf(s[..2]).value), s[2..]))
    else if |s| >= 1 && RelationOf(s[..1]).Some? then Ok((Op(RelationOf(s[..1]).value), s[1..]))
    else Err
  }

  predicate IsPunct(c: char) {
    c in "()[].,"
  }

  function WordToken(s: string): (r: Scanned<Token>)
    ensures Advances(r, s)
  {
    if s == [] || !IsLetter(s[0]) then Err
    else
      var n := Run(s, IsWord);
      Ok((if s[..n] in KEYWORDS then Kw(s[..n]) else Name(s[..n]), s[n..]))
  }

  function NextToken(s: string): (r: Scanned<Token>)
    ensures Advances(r, s)
  {
    if NumberToken(s).Ok? then NumberToken(s)
    else if StringToken(s).Ok? then StringToken(s)
    else if OperatorToken(s).Ok? then OperatorToken(s)
    else if s != [] && IsPunct(s[0]) then Ok((Punct(s[0]), s[1..]))
    else
      assert s != [] && IsLetter(s[0]) ==> IsWord(s[0]);
      WordToken(s)
  }

  function Scan(s: string): Result<seq<Token>>
    decreases |s|
  {
    if Blank(s) then Ok([])
    else
      var (t, rest) :- NextToken(SkipSpace(s));
      var ts :- Scan(rest);
      Ok([t] + ts)
  }

  function Tokenize(text: string): Result<seq<Token>> {
    if Blank(text) || |text| > MAX_EXPRESSION_LENGTH then Err else Scan(text)
  }

  function Prefixed(ts: seq<Token>, r: Result<seq<Token>>): Result<seq<Token>> {
    if r.Ok? then Ok(ts + r.value) else Err
  }

  lemma PrefixedOnce(ts: seq<Token>, t: Token, r: Result<seq<Token>>)
    ensures Prefixed(ts, Prefixed([t], r)) == Prefixed(ts + [t], r)
  {
    if r.Ok? {
      assert ts + ([t] + r.value) == ts + [t] + r.value;
    }
  }

  lemma NothingPrefixed(r: Result<seq<Token>>)
    ensures Prefixed([], r) == r
  {
    if r.Ok? {
      assert [] + r.value == r.value;
    }
  }

  lemma ScanOnce(s: string)
    requires !Blank(s) && NextToken(SkipSpace(s)).Ok?
    ensures Scan(s) == Prefixed([NextToken(SkipSpace(s)).value.0], Scan(NextToken(SkipSpace(s)).value.1))
  {
    hide NextToken, SkipSpace;
  }

  lemma ScanStops(s: string, tokens: seq<Token>)
    requires !Blank(s) && NextToken(SkipSpace(s)).Err?
    ensures Prefixed(tokens, Scan(s)) == Err
  {
    hide NextToken, SkipSpace;
  }

  lemma BlankScansToNothing(s: string, tokens: seq<Token>)
    requires Blank(s)
    ensures Prefixed(tokens, Scan(s)) == Ok(tokens)
  {
    assert tokens + [] == tokens;
  }

  /** The tokenizer as the code runs it: a position moved along the text. */
  method TokenizeLoop(text: string) returns (r: Result<seq<Token>>)
    ensures r == Tokenize(text)
  {
    if Blank(text) {
      return Err;
    }
    if |text| > MAX_EXPRESSION_LENGTH {
      return Err;
    }
    hide NextToken, SkipSpace, Prefixed, Scan;
    var tokens: seq<Token> := [];
    var pos := 0;
    NothingPrefixed(Scan(text));
    assert text[0..] == text;
    while pos < |text|
      invariant 0 <= pos <= |text|
      invariant Scan(text) == Prefixed(tokens, Scan(text[pos..]))
    {
      var left := text[pos..];
      if Blank(left) {
        break;
      }
      var found := NextToken(SkipSpace(left));
      if found.Err? {
        ScanStops(left, tokens);
        return Err;
      }
      var (t, rest) := found.value;
      SkipSpaceLeavesSuffix(left);
      ScanOnce(left);
      PrefixedOnce(tokens, t, Scan(rest));
      pos := |text| - |rest|;
      assert text[pos..] == rest;
      tokens := tokens + [t];
    }
    BlankScansToNothing(text[pos..], tokens);
    return Ok(tokens);
  }

  lemma SkipSpaceLeavesSuffix(s: string)
    ensures SkipSpace(s) == s[|s| - |SkipSpace(s)|..]
  {
  }

  function ParseText(text: string): Result<Expr> {
    var ts :- Tokenize(text);
    ParseTokens(ts)
  }

  // ── Spelling tokens and reading them back ─────────────────────────────

  function Escape(s: string): string {
    if s == [] then []
    else (if s[0] == '"' || s[0] == '\\' then ['\\', s[0]] else [s[0]]) + Escape(s[1..])
  }

  function Spelling(r: Relation): string {
    match r case Eq => "==" case Ne => "!=" case Le => "<=" case Ge => ">=" case Lt => "<" case Gt => ">"
  }

  function Scaled(x: real, k: nat): real {
    x * Pow10(k) as real
  }

  /** `x` has at most `k` decimal places. */
  predicate Places(x: real, k: nat) {
    Scaled(x, k) == Scaled(x, k).Floor as real
  }

  /** A number that can be written with a decimal point. */
  ghost predicate IsDecimal(x: real) {
    exists k: nat :: k > 0 && Places(x, k)
  }

  /** What the tokenizer can produce. */
  ghost predicate Spellable(t: Token) {
    match t
    case Lit(v) => v.Int? || v.Str? || (v.Float? && IsDecimal(v.r))
    case Op(_) => true
    case Punct(c) => IsPunct(c)
    case Kw(w) => w in KEYWORDS
    case Name(n) => n != [] && IsLetter(n[0]) && (forall c | c in n :: IsWord(c)) && n !in KEYWORDS
  }

  /** The last `k` digits of `n`. */
  function Padded(k: nat, n: nat): (s: string)
    ensures |s| == k && AllDigits(s)
  {
    if k == 0 then [] else Padded(k - 1, n / 10) + [DigitOf(n % 10)]
  }

  function Divide(n: nat, p: nat): (r: (nat, nat))
    requires p > 0
    ensures n == r.0 * p + r.1 && r.1 < p
  {
    (n / p, n % p)
  }

  /** `n` with a decimal point before its last `k` digits. */
  function Pointed(n: nat, k: nat): string {
    var (w, f) := Divide(n, Pow10(k));
    Digits(w) + "." + Padded(k, f)
  }

  ghost function SpellDecimal(x: real): string
    requires IsDecimal(x)
  {
    var k: nat :| k > 0 && Places(x, k);
    var n := Scaled(x, k).Floor;
    if n < 0 then "-" + Pointed(-n, k) else Pointed(n, k)
  }

  ghost function Spell(t: Token): string
    requires Spellable(t)
  {
    match t
    case Lit(v) =>
      if v.Str? then "\"" + Escape(v.s) + "\""
      else if v.Float? then SpellDecimal(v.r)
      else if v.n < 0 then "-" + Digits(-v.n) else Digits(v.n)
    case Op(r) => Spelling(r)
    case Punct(c) => [c]
    case Kw(w) => w
    case Name(n) => n
  }

  ghost function SpellAll(ts: seq<Token>): string
    requires forall t | t in ts :: Spellable(t)
  {
    if ts == [] then [] else Spell(ts[0]) + " " + SpellAll(ts[1..])
  }

  lemma {:induction false} EscapesSurvive(s: string, rest: string)
    ensures ClosingQuote(Escape(s) + ['"'] + rest, '"') == Some(|Escape(s)|)
    ensures Unescape(Escape(s)) == s
  {
    if s != [] {
      EscapesSurvive(s[1..], rest);
      var all := Escape(s) + ['"'] + rest;
      var tail := Escape(s[1..]) + ['"'] + rest;
      if s[0] == '"' || s[0] == '\\' {
        assert all[2..] == tail;
        assert Escape(s)[2..] == Escape(s[1..]);
      } else {
        assert all[1..] == tail;
        assert Escape(s)[1..] == Escape(s[1..]);
      }
    }
  }

  lemma {:induction false} RunStopsAt(s: string, p: char -> bool, rest: string)
    requires forall c | c in s :: p(c)
    requires rest == [] || !p(rest[0])
    ensures Run(s + rest, p) == |s|
  {
    if s == [] {
      assert s + rest == rest;
    } else {
      assert (s + rest)[1..] == s[1..] + rest;
      RunStopsAt(s[1..], p, rest);
    }
  }

  /** A sign before a numeral negates what is read. */
  lemma NumeralsReadBack(s: string, v: Value, rest: string)
    requires Numeral(s) == Ok((v, rest))
    ensures NumberToken(s) == Ok((Lit(v), rest))
    ensures NumberToken("-" + s) == Ok((Lit(Negated(v)), rest))
  {
    hide ValueOf, Pow10;
    assert ("-" + s)[1..] == s;
  }

  lemma NaturalsReadBack(n: nat, rest: string)
    requires rest != [] && rest[0] == ' '
    ensures Numeral(Digits(n) + rest) == Ok((Int(n), rest))
    ensures IsDigit((Digits(n) + rest)[0])
  {
    hide ValueOf, Pow10, Digits, Run;
    var digits := Digits(n);
    ReadingDigitsBack(n);
    RunStopsAt(digits, IsDigit, rest);
    var all := digits + rest;
    assert digits[0] in digits && all[0] == digits[0];
    assert all[..|digits|] == digits && all[|digits|..] == rest;
  }

  lemma Shift(v: nat, p: nat, n: nat)
    ensures 10 * (v * p + n / 10) + n % 10 == v * (10 * p) + n
  {
    assert v * (10 * p) == 10 * (v * p);
  }

  lemma {:induction false} PaddedReadsBack(w: string, k: nat, n: nat)
    requires AllDigits(w) && n < Pow10(k)
    ensures ValueOf(w + Padded(k, n)) == ValueOf(w) * Pow10(k) + n
  {
    var s := w + Padded(k, n);
    if k == 0 {
      assert s == w;
    } else {
      var front := w + Padded(k - 1, n / 10);
      PaddedReadsBack(w, k - 1, n / 10);
      assert s[..|s| - 1] == front && s[|s| - 1] == DigitOf(n % 10);
      assert ValueOf(s) == 10 * ValueOf(front) + n % 10;
      Shift(ValueOf(w), Pow10(k - 1), n);
    }
  }

  lemma DecimalsAreRead(part: string, rest: string)
    requires AllDigits(part) && rest != [] && rest[0] == ' '
    ensures Decimals("." + (part + rest)) == |part|
  {
    assert ("." + (part + rest))[1..] == part + rest;
    RunStopsAt(part, IsDigit, rest);
  }

  lemma NumeralWithPoint(s: string, whole: string, left: string, part: string, rest: string)
    requires Run(s, IsDigit) == |whole| > 0 && |whole| <= |s| && s[..|whole|] == whole && s[|whole|..] == left
    requires Decimals(left) == |part| > 0 && |part| < |left|
    requires left[1..1 + |part|] == part && left[1 + |part|..] == rest && AllDigits(whole + part)
    ensures Numeral(s) == Ok((Float(ValueOf(whole + part) as real / Pow10(|part|) as real), rest))
  {
    hide ValueOf, Pow10, Run, Decimals, Advances, AllDigits;
  }

  /** Digits, a point and digits are read as one number. */
  lemma PointIsRead(whole: string, part: string, rest: string)
    requires AllDigits(whole) && AllDigits(part) && whole != [] && part != []
    requires rest != [] && rest[0] == ' '
    ensures Numeral(whole + ("." + (part + rest))) ==
              Ok((Float(ValueOf(whole + part) as real / Pow10(|part|) as real), rest))
  {
    hide ValueOf, Pow10, Run, Decimals, Numeral;
    var left := "." + (part + rest);
    DecimalsAreRead(part, rest);
    RunStopsAt(whole, IsDigit, left);
    NumeralWithPoint(whole + left, whole, left, part, rest);
  }

  lemma PointedReadsBack(n: nat, k: nat, rest: string)
    requires k > 0 && rest != [] && rest[0] == ' '
    ensures Numeral(Pointed(n, k) + rest) == Ok((Float(n as real / Pow10(k) as real), rest))
    ensures IsDigit(Pointed(n, k)[0])
  {
    hide ValueOf, Pow10, Numeral, Padded, Divide, Digits;
    var (w, f) := Divide(n, Pow10(k));
    var whole, part := Digits(w), Padded(k, f);
    ReadingDigitsBack(w);
    PaddedReadsBack(whole, k, f);
    assert ValueOf(whole + part) == n;
    PointIsRead(whole, part, rest);
    assert Pointed(n, k) + rest == whole + ("." + (part + rest));
    assert Pointed(n, k)[0] == whole[0] && whole[0] in whole;
  }

  lemma Quotient(x: real, n: real, p: real)
    requires p > 0.0
    ensures x * p == n <==> x == n / p
  {
  }

  lemma Opposite(n: real, p: real)
    requires p > 0.0
    ensures n / p == -((-n) / p)
  {
  }

  lemma Scaling(x: real, k: nat, n: int)
    ensures Scaled(x, k) == n as real <==> x == n as real / Pow10(k) as real
    ensures n as real / Pow10(k) as real == -((-n) as real / Pow10(k) as real)
  {
    hide Pow10;
    Quotient(x, n as real, Pow10(k) as real);
    Opposite(n as real, Pow10(k) as real);
  }

  lemma DecimalsReadBack(x: real, rest: string)
    requires IsDecimal(x) && rest != [] && rest[0] == ' '
    ensures NextToken(SpellDecimal(x) + rest) == Ok((Lit(Float(x)), rest))
    ensures !IsSpace((SpellDecimal(x) + rest)[0])
  {
    hide NumberToken, StringToken, OperatorToken, WordToken, Pointed, Pow10, Numeral, Run, RelationOf;
    var k: nat :| k > 0 && Places(x, k) &&
      SpellDecimal(x) == var n := Scaled(x, k).Floor;
                         if n < 0 then "-" + Pointed(-n, k) else Pointed(n, k);
    var n := Scaled(x, k).Floor;
    var spelled := Pointed(if n < 0 then -n else n, k);
    Scaling(x, k, n);
    PointedReadsBack(if n < 0 then -n else n, k, rest);
    NumeralsReadBack(spelled + rest, Float((if n < 0 then -n else n) as real / Pow10(k) as real), rest);
    assert "-" + spelled + rest == "-" + (spelled + rest);
  }

  lemma NumbersReadBack(n: int, rest: string)
    requires rest != [] && rest[0] == ' '
    ensures NextToken(Spell(Lit(Int(n))) + rest) == Ok((Lit(Int(n)), rest))
  {
    hide NumberToken, StringToken, OperatorToken, WordToken, Numeral, Digits;
    var spelled := Digits(if n < 0 then -n else n);
    NaturalsReadBack(if n < 0 then -n else n, rest);
    NumeralsReadBack(spelled + rest, Int(if n < 0 then -n else n), rest);
    assert "-" + spelled + rest == "-" + (spelled + rest);
  }

  lemma StringsReadBack(s: string, rest: string)
    ensures NextToken(Spell(Lit(Str(s))) + rest) == Ok((Lit(Str(s)), rest))
  {
    hide Run;
    var all := Spell(Lit(Str(s))) + rest;
    EscapesSurvive(s, rest);
    assert all[1..] == Escape(s) + ['"'] + rest;
    assert all[1..1 + |Escape(s)|] == Escape(s);
    assert all[2 + |Escape(s)|..] == rest;
    assert NumberToken(all).Err? by {
      assert all[0..] == all;
      assert !IsDigit(all[0]);
    }
  }

  lemma OperatorsReadBack(r: Relation, rest: string)
    requires rest != [] && rest[0] == ' '
    ensures NextToken(Spelling(r) + rest) == Ok((Op(r), rest))
  {
    hide ClosingQuote, Decimals, ValueOf;
    var all := Spelling(r) + rest;
    assert all[0..] == all && !IsDigit(all[0]);
    assert all[..|Spelling(r)|] == Spelling(r) && all[|Spelling(r)|..] == rest;
    if |Spelling(r)| == 1 {
      assert all[..2][1] == ' ';
    }
  }

  lemma PunctuationReadsBack(c: char, rest: string)
    requires IsPunct(c)
    ensures NextToken([c] + rest) == Ok((Punct(c), rest))
  {
    var all := [c] + rest;
    assert all[0..] == all && !IsDigit(all[0]) && all[0] == c;
    assert all[1..] == rest;
    assert RelationOf(all[..1]).None?;
    if |all| >= 2 {
      assert all[..2][0] == c;
    }
  }

  lemma WordsReadBack(w: string, rest: string)
    requires rest != [] && rest[0] == ' '
    requires w != [] && IsLetter(w[0]) && forall c | c in w :: IsWord(c)
    ensures NextToken(w + rest) == Ok((if w in KEYWORDS then Kw(w) else Name(w), rest))
  {
    hide Run, Digits, ClosingQuote;
    var all := w + rest;
    assert all[0..] == all && !IsDigit(all[0]) && all[0] == w[0];
    RunStopsAt(w, IsWord, rest);
    assert all[..|w|] == w && all[|w|..] == rest;
    assert !IsPunct(all[0]);
    assert RelationOf(all[..1]).None?;
    if |all| >= 2 {
      assert all[..2][0] == w[0];
    }
  }

  lemma KeywordsAreWords(w: string)
    requires w in KEYWORDS
    ensures w != [] && IsLetter(w[0]) && forall c | c in w :: IsWord(c)
  {
  }

  lemma TokensReadBack(t: Token, rest: string)
    requires Spellable(t) && rest != [] && rest[0] == ' '
    ensures NextToken(Spell(t) + rest) == Ok((t, rest))
    ensures !IsSpace((Spell(t) + rest)[0])
  {
    hide NextToken, SpellDecimal, IsDecimal;
    match t
    case Lit(v) =>
      if v.Int? {
        NumbersReadBack(v.n, rest);
        assert v.n >= 0 ==> IsDigit(Digits(v.n)[0]);
      } else if v.Float? {
        DecimalsReadBack(v.r, rest);
      } else {
        StringsReadBack(v.s, rest);
      }
    case Op(r) => OperatorsReadBack(r, rest);
    case Punct(c) => PunctuationReadsBack(c, rest);
    case Kw(w) =>
      KeywordsAreWords(w);
      WordsReadBack(w, rest);
    case Name(n) => WordsReadBack(n, rest);
  }

  lemma SpaceIsSkipped(s: string)
    ensures Scan(" " + s) == Scan(s)
  {
    var all := " " + s;
    assert all[1..] == s;
    if Blank(s) {
      assert Blank(all);
    } else {
      var c :| c in s && !IsSpace(c);
      assert c in all;
    }
  }

  /** Every sequence of spellable tokens is read back from its spelling. */
  lemma {:induction false} SpellingsReadBack(ts: seq<Token>)
    requires forall t | t in ts :: Spellable(t)
    ensures Scan(SpellAll(ts)) == Ok(ts)
    decreases |ts|
  {
    if ts != [] {
      var rest := SpellAll(ts[1..]);
      var s := SpellAll(ts);
      assert s == Spell(ts[0]) + (" " + rest);
      TokensReadBack(ts[0], " " + rest);
      assert s[0] in s;
      SpaceIsSkipped(rest);
      SpellingsReadBack(ts[1..]);
      assert [ts[0]] + ts[1..] == ts;
    }
  }

  lemma FractionsAreDecimals(n: int, k: nat)
    requires k > 0
    ensures IsDecimal(n as real / Pow10(k) as real)
  {
    hide Pow10, Scaled;
    var x := n as real / Pow10(k) as real;
    Scaling(x, k, n);
    assert Places(x, k);
  }

  lemma NumeralsSpell(s: string)
    requires Numeral(s).Ok?
    ensures Spellable(Lit(Numeral(s).value.0)) && Spellable(Lit(Negated(Numeral(s).value.0)))
  {
    hide Run, ValueOf, Pow10, IsDecimal;
    var n := Run(s, IsDigit);
    var rest := s[n..];
    var m := Decimals(rest);
    if m > 0 {
      var value: int := ValueOf(s[..n] + rest[1..1 + m]);
      FractionsAreDecimals(value, m);
      FractionsAreDecimals(-value, m);
      Scaling(value as real / Pow10(m) as real, m, value);
    }
  }

  lemma NextTokenSpells(s: string)
    requires NextToken(s).Ok?
    ensures Spellable(NextToken(s).value.0)
  {
    hide Numeral, IsDecimal, ClosingQuote, Unescape, Negated;
    if NumberToken(s).Ok? {
      NumeralsSpell(if s[0] == '-' then s[1..] else s);
    }
  }

  /** Nothing else is ever read, so the spellable tokens are the tokens there are. */
  lemma {:induction false} ScannedTokensSpell(s: string)
    requires Scan(s).Ok?
    ensures forall t | t in Scan(s).value :: Spellable(t)
    decreases |s|
  {
    hide NextToken, Spellable;
    if !Blank(s) {
      NextTokenSpells(SkipSpace(s));
      ScannedTokensSpell(NextToken(SkipSpace(s)).value.1);
    }
  }

  ghost predicate SpellableScalar(v: Value) {
    v.Null? || v.Bool? || v.Int? || v.Str? || (v.Float? && IsDecimal(v.r))
  }

  /** Trees whose names are names and whose literals can be written. */
  ghost predicate Writeable(e: Expr) {
    match e
    case Or(l, r) => Writeable(l) && Writeable(r)
    case And(l, r) => Writeable(l) && Writeable(r)
    case Not(x) => Writeable(x)
    case Compare(_, l, r) => Writeable(l) && Writeable(r)
    case Literal(v) => SpellableScalar(v) || (v.Arr? && forall x | x in v.items :: SpellableScalar(x))
    case Path(root, _) => Spellable(Name(root))
  }

  lemma ScalarsSpell(v: Value)
    requires SpellableScalar(v)
    ensures Spellable(ScalarToken(v))
  {
  }

  lemma {:induction false} PrintedItemsSpell(items: seq<Value>)
    requires forall x | x in items :: SpellableScalar(x)
    ensures forall t | t in PrintItems(items) :: Spellable(t)
    decreases |items|
  {
    if items != [] {
      ScalarsSpell(items[0]);
    }
    if |items| > 1 {
      PrintedItemsSpell(items[1..]);
    }
  }

  lemma {:induction false} PrintedPartsSpell(parts: seq<Key>)
    ensures forall t | t in PrintParts(parts) :: Spellable(t)
    decreases |parts|
  {
    if parts != [] {
      PrintedPartsSpell(parts[1..]);
    }
  }

  lemma {:induction false} PrintedTreesSpell(e: Expr)
    requires Writeable(e)
    ensures Printable(e) && forall t | t in Print(e) :: Spellable(t)
  {
    hide IsDecimal, PrintParts, PrintItems;
    match e
    case Or(l, r) =>
      PrintedTreesSpell(l);
      PrintedTreesSpell(r);
    case And(l, r) =>
      PrintedTreesSpell(l);
      PrintedTreesSpell(r);
    case Not(x) => PrintedTreesSpell(x);
    case Compare(_, l, r) =>
      PrintedTreesSpell(l);
      PrintedTreesSpell(r);
    case Literal(v) =>
      if v.Arr? {
        PrintedItemsSpell(v.items);
      }
    case Path(_, parts) => PrintedPartsSpell(parts);
  }

  /** The text of a tree, read by the tokenizer and the parser, gives that tree, unless it is too long. */
  lemma TextReadsBack(e: Expr)
    requires Writeable(e)
    ensures (forall t | t in Print(e) :: Spellable(t))
    ensures ParseText(SpellAll(Print(e))) ==
              if |SpellAll(Print(e))| <= MAX_EXPRESSION_LENGTH then Ok(e) else Err
  {
    PrintedTreesSpell(e);
    var text := SpellAll(Print(e));
    SpellingsReadBack(Print(e));
    PrintedTreesReadBack(e);
    assert Scan(text) != Ok([]);
  }
}
