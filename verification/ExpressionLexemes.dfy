/**
 The lexical grammar of the expression language, stated as the token pattern of
 engine/expressions.py reads, and that the tokenizer takes the longest stretch it describes.
 */
module ExpressionLexemes {
  import opened Wrappers
  import opened Json
  import opened Decimal
  import opened Expressions
  import opened ExpressionText

  // ── What spells a token ───────────────────────────────────────────────

  function Magnitude(whole: string, fraction: string): Value
    requires AllDigits(whole) && AllDigits(fraction)
  {
    if fraction == "" then Int(ValueOf(whole))
    else Float(ValueOf(whole + fraction) as real / Pow10(|fraction|) as real)
  }

  /** Digits, and then perhaps a point and more digits. */
  ghost predicate NumeralSpells(l: string, whole: string, fraction: string, v: Value) {
    && l == whole + (if fraction == "" then "" else "." + fraction)
    && whole != "" && AllDigits(whole) && AllDigits(fraction)
    && v == Magnitude(whole, fraction)
  }

  /** A number with or without a sign before it. */
  ghost predicate NumberSpells(l: string, v: Value) {
    || (exists whole, fraction :: NumeralSpells(l, whole, fraction, v))
    || (&& l != "" && l[0] == '-'
        && exists whole, fraction, size :: NumeralSpells(l[1..], whole, fraction, size) && v == Negated(size))
  }

  /** Between quotes: any character but the quote and the backslash, or a backslash and any but a line break. */
  predicate Reads(body: string, quote: char, s: string)
    decreases |body|
  {
    if body == "" then s == ""
    else if body[0] == '\\' then
      |body| >= 2 && body[1] != '\n' && s != "" && s[0] == body[1] && Reads(body[2..], quote, s[1..])
    else body[0] != quote && s != "" && s[0] == body[0] && Reads(body[1..], quote, s[1..])
  }

  ghost predicate Quoted(l: string, s: string) {
    && |l| >= 2 && (l[0] == '"' || l[0] == '\'') && l[|l| - 1] == l[0]
    && Reads(l[1..|l| - 1], l[0], s)
  }

  predicate Word(l: string) {
    && l != ""
    && ('a' <= l[0] <= 'z' || 'A' <= l[0] <= 'Z' || l[0] == '_')
    && forall i | 0 <= i < |l| :: 'a' <= l[i] <= 'z' || 'A' <= l[i] <= 'Z' || l[i] == '_' || '0' <= l[i] <= '9'
  }

  predicate Reserved(l: string) {
    l == "and" || l == "or" || l == "not" || l == "in" || l == "true" || l == "false" || l == "null"
  }

  ghost predicate Spells(l: string, t: Token) {
    match t
    case Lit(v) => NumberSpells(l, v) || (v.Str? && Quoted(l, v.s))
    case Op(Eq) => l == "=="
    case Op(Ne) => l == "!="
    case Op(Le) => l == "<="
    case Op(Ge) => l == ">="
    case Op(Lt) => l == "<"
    case Op(Gt) => l == ">"
    case Punct(c) => l == [c] && (c == '(' || c == ')' || c == '[' || c == ']' || c == '.' || c == ',')
    case Kw(w) => l == w && Reserved(w)
    case Name(n) => l == n && Word(n) && !Reserved(n)
  }

  // ── Numbers ───────────────────────────────────────────────────────────

  lemma {:induction false} RunIsLongest(s: string, p: char -> bool, k: nat)
    requires k <= |s| && forall i | 0 <= i < k :: p(s[i])
    ensures k <= Run(s, p)
  {
    if k > 0 {
      RunIsLongest(s[1..], p, k - 1);
    }
  }

  lemma NumeralIsSpelled(s: string) returns (whole: string, fraction: string)
    requires Numeral(s).Ok?
    ensures NumeralSpells(s[..|s| - |Numeral(s).value.1|], whole, fraction, Numeral(s).value.0)
  {
    var n := Run(s, IsDigit);
    var rest := s[n..];
    var m := Decimals(rest);
    whole, fraction := s[..n], if m == 0 then "" else rest[1..1 + m];
    assert rest != [] && m > 0 ==> rest[0] == '.' && rest[..1 + m] == "." + fraction;
    assert s[..|s| - |Numeral(s).value.1|] == whole + if fraction == "" then "" else "." + fraction;
  }

  /** How the numeral at the start is found, from how many digits there are before a point and after it. */
  lemma NumeralParts(s: string, n: nat, m: nat)
    requires n == Run(s, IsDigit) > 0 && m == Decimals(s[n..])
    ensures Numeral(s).Ok? && |s| - |Numeral(s).value.1| == n + if m == 0 then 0 else 1 + m
    ensures m > 0 ==> n + 1 + m <= |s|
    ensures m == 0 ==> Numeral(s).value.0 == Int(ValueOf(s[..n]))
    ensures m > 0 ==> var whole, fraction := s[..n], s[n + 1..n + 1 + m];
              && AllDigits(whole) && AllDigits(fraction) && AllDigits(whole + fraction)
              && Numeral(s).value.0 == Float(ValueOf(whole + fraction) as real / Pow10(m) as real)
  {
    hide ValueOf, Pow10, Run;
    if m > 0 {
      assert s[n..][1..1 + m] == s[n + 1..n + 1 + m];
    }
  }

  lemma NumeralIsLongest(s: string, l: string, whole: string, fraction: string, v: Value)
    requires l <= s && NumeralSpells(l, whole, fraction, v)
    ensures Numeral(s).Ok? && |l| <= |s| - |Numeral(s).value.1|
    ensures |l| == |s| - |Numeral(s).value.1| ==> Numeral(s).value.0 == v
  {
    hide ValueOf, Pow10, Numeral, Decimals;
    assert s == l + s[|l|..];
    if fraction == "" {
      WholeIsRead(s, whole, s[|l|..]);
    } else {
      assert s == whole + ("." + (fraction + s[|l|..]));
      FractionIsRead(s, whole, fraction, s[|l|..]);
    }
  }

  lemma WholeIsRead(s: string, whole: string, tail: string)
    requires s == whole + tail && whole != "" && AllDigits(whole)
    ensures Numeral(s).Ok? && |whole| <= |s| - |Numeral(s).value.1|
    ensures |whole| == |s| - |Numeral(s).value.1| ==> Numeral(s).value.0 == Int(ValueOf(whole))
  {
    hide ValueOf, Pow10, Run, Numeral, Decimals;
    var n := Run(s, IsDigit);
    DigitsRun(s, whole, tail);
    NumeralParts(s, n, Decimals(s[n..]));
    assert n == |whole| ==> s[..n] == whole;
  }

  lemma FractionIsRead(s: string, whole: string, fraction: string, tail: string)
    requires s == whole + ("." + (fraction + tail)) && whole != "" && fraction != ""
    requires AllDigits(whole) && AllDigits(fraction)
    ensures Numeral(s).Ok? && |whole| + 1 + |fraction| <= |s| - |Numeral(s).value.1|
    ensures |whole| + 1 + |fraction| == |s| - |Numeral(s).value.1| ==>
              && AllDigits(whole + fraction)
              && Numeral(s).value.0 == Float(ValueOf(whole + fraction) as real / Pow10(|fraction|) as real)
  {
    hide ValueOf, Pow10, Run, Numeral, Decimals;
    var after := fraction + tail;
    var left := "." + after;
    assert left[1..] == after;
    RunStopsAt(whole, IsDigit, left);
    assert s[|whole|..] == left && s[..|whole|] == whole;
    DigitsRun(after, fraction, tail);
    PointThenDigits(left, after);
    NumeralParts(s, |whole|, Decimals(left));
    assert s[|whole| + 1..] == after && after[..|fraction|] == fraction;
    assert s[|whole| + 1..|whole| + 1 + |fraction|] == fraction;
  }

  lemma PointThenDigits(s: string, after: string)
    requires s != "" && s[0] == '.' && s[1..] == after
    ensures Decimals(s) == Run(after, IsDigit)
  {
  }

  lemma DigitsRun(s: string, digits: string, tail: string)
    requires s == digits + tail && AllDigits(digits)
    ensures |digits| <= Run(s, IsDigit)
  {
    forall i | 0 <= i < |digits|
      ensures IsDigit(s[i])
    {
      assert digits[i] in digits;
    }
    RunIsLongest(s, IsDigit, |digits|);
  }

  lemma NumberIsSpelled(s: string)
    requires NumberToken(s).Ok?
    ensures var (t, rest) := NumberToken(s).value; t.Lit? && NumberSpells(s[..|s| - |rest|], t.v)
  {
    hide Numeral, NumeralSpells, Negated;
    var rest := NumberToken(s).value.1;
    var l := s[..|s| - |rest|];
    if s[0] == '-' {
      var whole, fraction := NumeralIsSpelled(s[1..]);
      assert l[1..] == s[1..][..|s[1..]| - |rest|];
      assert NumeralSpells(l[1..], whole, fraction, Numeral(s[1..]).value.0);
    } else {
      var whole, fraction := NumeralIsSpelled(s);
    }
  }

  lemma NumberIsLongest(s: string, l: string, v: Value)
    requires l <= s && NumberSpells(l, v)
    ensures NumberToken(s).Ok? && |l| <= |s| - |NumberToken(s).value.1|
    ensures |l| == |s| - |NumberToken(s).value.1| ==> NumberToken(s).value.0 == Lit(v)
  {
    hide Numeral, Negated;
    if l != "" && l[0] == '-' {
      assert forall whole, fraction | NumeralSpells(l, whole, fraction, v) :: whole[0] == l[0] && whole[0] in whole;
      var whole, fraction, size :| NumeralSpells(l[1..], whole, fraction, size) && v == Negated(size);
      assert s[0] == '-' && l[1..] <= s[1..];
      NumeralIsLongest(s[1..], l[1..], whole, fraction, size);
    } else {
      var whole, fraction :| NumeralSpells(l, whole, fraction, v);
      assert whole[0] in whole && l[0] == whole[0] == s[0];
      NumeralIsLongest(s, l, whole, fraction, v);
    }
  }

  // ── Strings ───────────────────────────────────────────────────────────

  /** What is read between quotes is what it says without the backslashes, and nothing else. */
  lemma {:induction false} ReadsIsUnescaping(body: string, quote: char, s: string)
    requires Reads(body, quote, s)
    ensures s == Unescape(body)
    decreases |body|
  {
    if body == "" {
    } else if body[0] == '\\' {
      ReadsIsUnescaping(body[2..], quote, s[1..]);
      assert s == [s[0]] + s[1..];
    } else {
      ReadsIsUnescaping(body[1..], quote, s[1..]);
      assert s == [s[0]] + s[1..];
    }
  }

  /** The closing quote is the first that no backslash stands before. */
  lemma {:induction false} ClosingEndsABody(s: string, quote: char)
    requires quote != '\\' && ClosingQuote(s, quote).Some?
    ensures var end := ClosingQuote(s, quote).value; s[end] == quote && Reads(s[..end], quote, Unescape(s[..end]))
    decreases |s|
  {
    var end := ClosingQuote(s, quote).value;
    var body := s[..end];
    if s[0] == quote {
    } else if s[0] == '\\' {
      ClosingEndsABody(s[2..], quote);
      assert body[2..] == s[2..][..end - 2];
    } else {
      ClosingEndsABody(s[1..], quote);
      assert body[1..] == s[1..][..end - 1];
    }
  }

  lemma {:induction false} ABodyIsClosed(body: string, quote: char, s: string, tail: string)
    requires Reads(body, quote, s) && quote != '\\'
    ensures ClosingQuote(body + [quote] + tail, quote) == Some(|body|)
    decreases |body|
  {
    var all := body + [quote] + tail;
    if body == "" {
    } else if body[0] == '\\' {
      ABodyIsClosed(body[2..], quote, s[1..], tail);
      assert all[2..] == body[2..] + [quote] + tail;
    } else {
      ABodyIsClosed(body[1..], quote, s[1..], tail);
      assert all[1..] == body[1..] + [quote] + tail;
    }
  }

  lemma StringIsSpelled(s: string)
    requires StringToken(s).Ok?
    ensures var (t, rest) := StringToken(s).value; t.Lit? && t.v.Str? && Quoted(s[..|s| - |rest|], t.v.s)
  {
    hide ClosingQuote, Unescape, Reads;
    ClosingEndsABody(s[1..], s[0]);
    var end := ClosingQuote(s[1..], s[0]).value;
    var l := s[..2 + end];
    assert l[1..|l| - 1] == s[1..][..end] == s[1..1 + end];
    assert l[|l| - 1] == s[1..][end];
  }

  lemma StringIsOnly(s: string, l: string, v: string)
    requires l <= s && Quoted(l, v)
    ensures StringToken(s) == Ok((Lit(Str(v)), s[|l|..]))
  {
    hide ClosingQuote, Unescape, Reads;
    var body, tail := l[1..|l| - 1], s[|l|..];
    ABodyIsClosed(body, l[0], v, tail);
    ReadsIsUnescaping(body, l[0], v);
    assert l == [l[0]] + body + [l[0]] && s == l + tail;
    assert s[1..] == body + [l[0]] + tail;
    assert s[1..1 + |body|] == body;
  }

  // ── Operators and words ───────────────────────────────────────────────

  lemma OperatorsAreSix(l: string, r: Relation)
    ensures Spells(l, Op(r)) <==> RelationOf(l) == Some(r)
    ensures Spells(l, Op(r)) ==> |l| == 1 || |l| == 2
  {
  }

  lemma OperatorIsSpelled(s: string)
    requires OperatorToken(s).Ok?
    ensures var (t, rest) := OperatorToken(s).value; t.Op? && Spells(s[..|s| - |rest|], t)
  {
    var (t, rest) := OperatorToken(s).value;
    OperatorsAreSix(s[..|s| - |rest|], t.relation);
    hide Spells, RelationOf;
  }

  lemma OperatorIsLongest(s: string, l: string, r: Relation)
    requires l <= s && Spells(l, Op(r))
    ensures OperatorToken(s).Ok? && |l| <= |s| - |OperatorToken(s).value.1|
    ensures |l| == |s| - |OperatorToken(s).value.1| ==> OperatorToken(s).value.0 == Op(r)
  {
    OperatorsAreSix(l, r);
    hide Spells, RelationOf;
    assert s[..|l|] == l;
  }

  /** The first character says which kind of token can begin there. */
  lemma FirstDecides(s: string)
    requires s != ""
    ensures !('0' <= s[0] <= '9') && s[0] != '-' ==> NumberToken(s).Err?
    ensures s[0] != '"' && s[0] != '\'' ==> StringToken(s).Err?
    ensures s[0] != '=' && s[0] != '!' && s[0] != '<' && s[0] != '>' ==> OperatorToken(s).Err?
    ensures IsPunct(s[0]) <==>
              s[0] == '(' || s[0] == ')' || s[0] == '[' || s[0] == ']' || s[0] == '.' || s[0] == ','
  {
    hide ClosingQuote, Unescape, ValueOf, Pow10;
    assert s[..1][0] == s[0];
    assert |s| >= 2 ==> s[..2][0] == s[0];
  }

  lemma WordIsLongest(s: string)
    ensures WordToken(s).Ok? <==>
              s != "" && ('a' <= s[0] <= 'z' || 'A' <= s[0] <= 'Z' || s[0] == '_')
    ensures WordToken(s).Ok? ==>
              var (t, rest) := WordToken(s).value;
              && Spells(s[..|s| - |rest|], t) && (t.Kw? || t.Name?)
              && forall l | l <= s && Word(l) :: |l| <= |s| - |rest|
  {
    if WordToken(s).Ok? {
      var n := Run(s, IsWord);
      var word := s[..n];
      assert word in KEYWORDS <==> Reserved(word);
      assert IsWord(s[0]);
      assert forall i | 0 <= i < n :: word[i] == s[i];
      forall l | l <= s && Word(l)
        ensures |l| <= n
      {
        assert forall i | 0 <= i < |l| :: l[i] == s[i] && IsWord(l[i]);
        RunIsLongest(s, IsWord, |l|);
      }
    }
  }

  // ── The longest that spells a token ───────────────────────────────────

  lemma TokenIsSpelled(s: string)
    requires NextToken(s).Ok?
    ensures var (t, rest) := NextToken(s).value; Spells(s[..|s| - |rest|], t)
  {
    hide NumberToken, StringToken, OperatorToken, WordToken, NumberSpells, Quoted;
    if NumberToken(s).Ok? {
      NumberIsSpelled(s);
    } else if StringToken(s).Ok? {
      StringIsSpelled(s);
    } else if OperatorToken(s).Ok? {
      OperatorIsSpelled(s);
    } else {
      FirstDecides(s);
      WordIsLongest(s);
    }
  }

  lemma BeginsAsSpelled(l: string, t: Token)
    requires Spells(l, t)
    ensures l != ""
    ensures t.Lit? && NumberSpells(l, t.v) ==> '0' <= l[0] <= '9' || l[0] == '-'
    ensures t.Lit? && !NumberSpells(l, t.v) ==> l[0] == '"' || l[0] == '\''
    ensures t.Op? ==> l[0] == '=' || l[0] == '!' || l[0] == '<' || l[0] == '>'
    ensures t.Kw? || t.Name? ==> Word(l)
  {
    hide Magnitude, Reads;
    if t.Lit? && NumberSpells(l, t.v) && (l == "" || l[0] != '-') {
      var whole, fraction :| NumeralSpells(l, whole, fraction, t.v);
      assert whole[0] in whole && l[0] == whole[0];
    }
  }

  lemma LiteralIsLongest(s: string, l: string, v: Value)
    requires l <= s && Spells(l, Lit(v))
    ensures NextToken(s).Ok? && |l| <= |s| - |NextToken(s).value.1|
    ensures |l| == |s| - |NextToken(s).value.1| ==> NextToken(s).value.0 == Lit(v)
  {
    hide NumberToken, StringToken, OperatorToken, WordToken, NumberSpells, Quoted, IsPunct;
    BeginsAsSpelled(l, Lit(v));
    FirstDecides(s);
    if NumberSpells(l, v) {
      NumberIsLongest(s, l, v);
    } else {
      StringIsOnly(s, l, v.s);
    }
  }

  lemma SignIsLongest(s: string, l: string, t: Token)
    requires l <= s && Spells(l, t) && (t.Op? || t.Punct?)
    ensures NextToken(s).Ok? && |l| <= |s| - |NextToken(s).value.1|
    ensures |l| == |s| - |NextToken(s).value.1| ==> NextToken(s).value.0 == t
  {
    hide NumberToken, StringToken, OperatorToken, WordToken, IsPunct;
    BeginsAsSpelled(l, t);
    FirstDecides(s);
    if t.Op? {
      OperatorIsLongest(s, l, t.relation);
    }
  }

  lemma WordIsRead(s: string, l: string, t: Token)
    requires l <= s && Spells(l, t) && (t.Kw? || t.Name?)
    ensures NextToken(s) == WordToken(s) && WordToken(s).Ok?
  {
    hide NumberToken, StringToken, OperatorToken, WordToken, IsPunct;
    BeginsAsSpelled(l, t);
    FirstDecides(s);
    WordIsLongest(s);
  }

  lemma LongestWordIsRead(s: string, l: string, t: Token)
    requires l <= s && Spells(l, t) && (t.Kw? || t.Name?)
    ensures NextToken(s).Ok? && |l| <= |s| - |NextToken(s).value.1|
    ensures |l| == |s| - |NextToken(s).value.1| ==> NextToken(s).value.0 == t
  {
    hide NextToken, WordToken, NumberSpells, Quoted;
    WordIsRead(s, l, t);
    WordIsLongest(s);
    BeginsAsSpelled(l, t);
    hide Word;
    assert |l| == |s| - |WordToken(s).value.1| ==> s[..|l|] == l;
  }

  lemma TokenIsLongest(s: string, l: string, t: Token)
    requires l <= s && Spells(l, t)
    ensures NextToken(s).Ok? && |l| <= |s| - |NextToken(s).value.1|
    ensures |l| == |s| - |NextToken(s).value.1| ==> NextToken(s).value.0 == t
  {
    if t.Lit? {
      LiteralIsLongest(s, l, t.v);
    } else if t.Op? || t.Punct? {
      SignIsLongest(s, l, t);
    } else {
      LongestWordIsRead(s, l, t);
    }
  }

  /** `l` is at the start, spells `t`, and nothing longer at the start spells a token. */
  ghost predicate Longest(s: string, l: string, t: Token) {
    && l <= s && Spells(l, t)
    && forall k, u | k <= s && Spells(k, u) :: |k| <= |l|
  }

  /** The next token is the longest that is spelled there; there is none exactly when none is. */
  lemma NextTokenIsTheLongest(s: string, l: string, t: Token)
    requires l <= s
    ensures NextToken(s) == Ok((t, s[|l|..])) <==> Longest(s, l, t)
    ensures NextToken(s).Err? ==> !Spells(l, t)
  {
    hide NextToken, Spells;
    if NextToken(s).Ok? {
      var (u, rest) := NextToken(s).value;
      RestIsLeft(s);
      TokenIsSpelled(s);
      var k := s[..|s| - |rest|];
      forall j, v | j <= s && Spells(j, v)
        ensures |j| <= |k| && (j == k ==> v == u)
      {
        TokenIsLongest(s, j, v);
      }
      assert s[..|l|] == l;
    } else if Spells(l, t) {
      TokenIsLongest(s, l, t);
    }
  }

  // ── A text and its tokens ─────────────────────────────────────────────

  /** Python's white space, in ASCII. */
  predicate AllSpace(s: string) {
    forall i | 0 <= i < |s| ::
      s[i] in {' ', '\t', '\n', '\r'} || 11 <= s[i] as int <= 12 || 28 <= s[i] as int <= 31
  }

  /** White space, the longest that spells the first token, and then the text of the others. */
  ghost predicate Lexed(s: string, ts: seq<Token>)
    decreases |ts|
  {
    if ts == [] then AllSpace(s)
    else exists space, l, rest :: Begins(s, space, l, rest, ts[0]) && Lexed(rest, ts[1..])
  }

  ghost predicate Begins(s: string, space: string, l: string, rest: string, t: Token) {
    s == space + (l + rest) && AllSpace(space) && Longest(l + rest, l, t)
  }

  lemma BlankExactlyWhen(s: string)
    ensures Blank(s) <==> AllSpace(s)
  {
    if Blank(s) {
      assert forall i | 0 <= i < |s| :: s[i] in s;
    }
  }

  lemma {:induction false} SkippedSpace(s: string)
    ensures var rest := SkipSpace(s); s[|s| - |rest|..] == rest && AllSpace(s[..|s| - |rest|])
  {
    if s != [] && IsSpace(s[0]) {
      SkippedSpace(s[1..]);
      var n := |s| - |SkipSpace(s)|;
      assert s[1..][..n - 1] == s[..n][1..];
    }
  }

  lemma {:induction false} SpaceIsSkipped(space: string, s: string)
    requires AllSpace(space) && s != "" && !IsSpace(s[0])
    ensures SkipSpace(space + s) == s && !Blank(space + s)
  {
    if space == "" {
      assert space + s == s;
    } else {
      SpaceIsSkipped(space[1..], s);
      assert (space + s)[1..] == space[1..] + s;
    }
    assert s[0] in space + s;
  }

  lemma NoTokenBeginsWithSpace(l: string, t: Token)
    requires Spells(l, t)
    ensures l != "" && !IsSpace(l[0])
  {
    hide NumberSpells, Quoted;
    BeginsAsSpelled(l, t);
  }

  lemma RestIsLeft(s: string)
    requires NextToken(s).Ok?
    ensures var rest := NextToken(s).value.1; |rest| < |s| && s[|s| - |rest|..] == rest
  {
    hide NextToken;
    assert Advances(NextToken(s), s);
  }

  lemma ScannedBegins(s: string, ts: seq<Token>) returns (space: string, l: string, rest: string)
    requires Scan(s) == Ok(ts) && ts != []
    ensures Begins(s, space, l, rest, ts[0]) && Scan(rest) == Ok(ts[1..])
  {
    hide NextToken, SkipSpace, Longest, AllSpace, Blank;
    var left := SkipSpace(s);
    SkippedSpace(s);
    rest := NextToken(left).value.1;
    RestIsLeft(left);
    space, l := s[..|s| - |left|], left[..|left| - |rest|];
    NextTokenIsTheLongest(left, l, ts[0]);
    assert left == l + rest && s == space + left;
  }

  lemma BeginningIsScanned(s: string, space: string, l: string, rest: string, t: Token)
    requires Begins(s, space, l, rest, t)
    ensures Scan(s) == Prefixed([t], Scan(rest))
  {
    hide NextToken, SkipSpace, Spells, IsSpace, Scan;
    NoTokenBeginsWithSpace(l, t);
    SpaceIsSkipped(space, l + rest);
    NextTokenIsTheLongest(l + rest, l, t);
    assert (l + rest)[|l|..] == rest;
    ScanOnce(s);
  }

  /** The scanner gives exactly the tokens of the lexical grammar. */
  lemma {:induction false} ScannerIsTheLexicalGrammar(s: string, ts: seq<Token>)
    ensures Scan(s) == Ok(ts) <==> Lexed(s, ts)
    decreases |ts|, 1
  {
    hide NextToken, SkipSpace, Begins, Prefixed;
    if ts == [] {
      BlankExactlyWhen(s);
    } else {
      if Scan(s) == Ok(ts) {
        var space, l, rest := ScannedBegins(s, ts);
        ScannerIsTheLexicalGrammar(rest, ts[1..]);
      }
      if Lexed(s, ts) {
        LexedIsScanned(s, ts);
      }
    }
  }

  lemma LexedIsScanned(s: string, ts: seq<Token>)
    requires Lexed(s, ts) && ts != []
    ensures Scan(s) == Ok(ts)
    decreases |ts|, 0
  {
    hide Begins, Scan;
    var space, l, rest :| Begins(s, space, l, rest, ts[0]) && Lexed(rest, ts[1..]);
    ScannerIsTheLexicalGrammar(rest, ts[1..]);
    BeginningIsScanned(s, space, l, rest, ts[0]);
    assert [ts[0]] + ts[1..] == ts;
  }

  /** A text has tokens exactly when it is not blank, has at most 500 characters and is of the lexical grammar. */
  lemma TokenizerIsTheLexicalGrammar(text: string, ts: seq<Token>)
    ensures Tokenize(text) == Ok(ts) <==> |text| <= 500 && !AllSpace(text) && Lexed(text, ts)
  {
    hide Scan, Lexed;
    BlankExactlyWhen(text);
    ScannerIsTheLexicalGrammar(text, ts);
  }
}
