/**
 Text with placeholders, as ai/redaction.py writes and reads it. While text is being redacted it is
 a sequence of pieces: characters of the input, and placeholders put in for a stretch of it.
 */
module Redaction {
  import opened Wrappers
  import opened Decimal

  datatype Kind = Secret | Email | Phone | Card | Iban | NationalId | Ip | Person
  {
    function Name(): string {
      match this
      case Secret => "SECRET"
      case Email => "EMAIL"
      case Phone => "PHONE"
      case Card => "CARD"
      case Iban => "IBAN"
      case NationalId => "ID"
      case Ip => "IP"
      case Person => "PERSON"
    }
  }

  /** Kinds that may be put back. A secret is never put back. */
  const PERSONAL: set<Kind> := {Email, Phone, Person, Ip}

  function PlaceholderText(kind: Kind, n: nat): string {
    "[[" + kind.Name() + "_" + Digits(n) + "]]"
  }

  // ── Text of placeholder form ──────────────────────────────────────────

  predicate IsCapital(c: char) { 'A' <= c <= 'Z' }

  function Capitals(s: string): (n: nat)
    ensures n <= |s| && (forall i | 0 <= i < n :: IsCapital(s[i])) && (n < |s| ==> !IsCapital(s[n]))
  {
    if s != [] && IsCapital(s[0]) then 1 + Capitals(s[1..]) else 0
  }

  function Numerals(s: string): (n: nat)
    ensures n <= |s| && (forall i | 0 <= i < n :: IsDigit(s[i])) && (n < |s| ==> !IsDigit(s[n]))
  {
    if s != [] && IsDigit(s[0]) then 1 + Numerals(s[1..]) else 0
  }

  /** How long the placeholder is that `s` begins with. Zero when it begins with none. */
  function MatchLength(s: string): (n: nat)
    ensures n <= |s|
  {
    if !("[[" <= s) then 0
    else
      var a := Capitals(s[2..]);
      if a == 0 || 2 + a >= |s| || s[2 + a] != '_' then 0
      else
        var d := Numerals(s[3 + a..]);
        if d == 0 || !("]]" <= s[3 + a + d..]) then 0 else 5 + a + d
  }

  /** What a placeholder at the start of `s` is made of: brackets, capitals, an underscore, digits, brackets. */
  lemma MatchParts(s: string) returns (a: nat, d: nat)
    requires MatchLength(s) > 0
    ensures a > 0 && d > 0 && MatchLength(s) == 5 + a + d && 5 + a + d <= |s|
    ensures s[0] == '[' && s[1] == '[' && s[2 + a] == '_' && s[3 + a + d] == ']' && s[4 + a + d] == ']'
    ensures forall i | 2 <= i < 2 + a :: IsCapital(s[i])
    ensures forall i | 3 + a <= i < 3 + a + d :: IsDigit(s[i])
    ensures forall i | 2 <= i < 5 + a + d :: s[i] != '['
  {
    a := Capitals(s[2..]);
    var digits := s[3 + a..];
    d := Numerals(digits);
    var close := s[3 + a + d..];
    assert close[0] == s[3 + a + d] && close[1] == s[4 + a + d];
    forall i | 2 <= i < 2 + a
      ensures IsCapital(s[i])
    {
      assert s[2..][i - 2] == s[i];
    }
    forall i | 3 + a <= i < 3 + a + d
      ensures IsDigit(s[i])
    {
      assert digits[i - 3 - a] == s[i];
    }
  }

  /** Nowhere does the text have a placeholder in it. */
  ghost predicate NoPlaceholder(s: string) {
    forall i | 0 <= i <= |s| :: MatchLength(s[i..]) == 0
  }

  // ── The escape ────────────────────────────────────────────────────────

  /** Every pair of `c`, left to right and not overlapping, with a space between. */
  function Spaced(s: string, c: char): string {
    if |s| < 2 then s
    else if s[0] == c && s[1] == c then [c, ' ', c] + Spaced(s[2..], c)
    else [s[0]] + Spaced(s[1..], c)
  }

  function Escape(s: string): string {
    Spaced(Spaced(s, '['), ']')
  }

  /** Where two of `c` are next to each other, the first of them follows a space. */
  predicate PairsFollowSpaces(s: string, c: char) {
    forall i | 0 <= i && i + 1 < |s| && s[i] == c && s[i + 1] == c :: i > 0 && s[i - 1] == ' '
  }

  lemma {:induction false} SpacedPairs(s: string, c: char)
    requires c != ' '
    ensures PairsFollowSpaces(Spaced(s, c), c)
    ensures s == [] <==> Spaced(s, c) == []
    ensures s != [] ==> Spaced(s, c)[0] == s[0]
  {
    if |s| >= 2 {
      var pair := s[0] == c && s[1] == c;
      var rest := if pair then s[2..] else s[1..];
      SpacedPairs(rest, c);
      var head, tail := if pair then [c, ' ', c] else [s[0]], Spaced(rest, c);
      var out := head + tail;
      forall i | 0 <= i && i + 1 < |out| && out[i] == c && out[i + 1] == c
        ensures i > 0 && out[i - 1] == ' '
      {
        if i >= |head| {
          assert tail[i - |head|] == c && tail[i - |head| + 1] == c;
        }
      }
    }
  }

  lemma MatchEnds(s: string, i: nat) returns (j: nat)
    requires i <= |s| && MatchLength(s[i..]) > 0
    ensures j + 2 < |s| && IsDigit(s[j]) && s[j + 1] == ']' && s[j + 2] == ']'
  {
    var t := s[i..];
    var a, d := MatchParts(t);
    hide MatchLength;
    j := i + 2 + a + d;
    assert t[2 + a + d] == s[j] && t[3 + a + d] == s[j + 1] && t[4 + a + d] == s[j + 2];
  }

  /** A placeholder ends in a digit and two brackets; after the escape two brackets follow only a space. */
  lemma NoDigitBeforeBrackets(s: string)
    requires PairsFollowSpaces(s, ']')
    ensures NoPlaceholder(s)
  {
    forall i | 0 <= i <= |s|
      ensures MatchLength(s[i..]) == 0
    {
      if MatchLength(s[i..]) > 0 {
        var j := MatchEnds(s, i);
        assert false;
      }
    }
  }

  /** No input contains text of placeholder form once it is escaped. */
  lemma EscapedTextHasNoPlaceholder(s: string)
    ensures NoPlaceholder(Escape(s))
  {
    SpacedPairs(Spaced(s, '['), ']');
    NoDigitBeforeBrackets(Escape(s));
  }

  /** Two opening brackets can survive the escape; what they cannot do is begin a placeholder. */
  lemma BracketsCanSurvive()
    ensures Escape("[[[") == "[ [["
  {
    assert Spaced("[[[", '[') == "[ [[" by {
      assert "[[["[2..] == "[";
    }
    var s := "[ [[";
    assert s[1..] == " [[" && s[1..][1..] == "[[" && s[1..][1..][1..] == "[";
    assert Spaced("[", ']') == "[" && Spaced("[[", ']') == "[[" && Spaced(" [[", ']') == " [[" && Spaced(s, ']') == s;
  }

  // ── Pieces ────────────────────────────────────────────────────────────

  datatype Piece = Raw(c: char) | Mark(kind: Kind, n: nat)

  function Shown(p: Piece): string {
    match p case Raw(c) => [c] case Mark(kind, n) => PlaceholderText(kind, n)
  }

  function Render(ps: seq<Piece>): string {
    if ps == [] then "" else Shown(ps[0]) + Render(ps[1..])
  }

  function AsPieces(s: string): seq<Piece> {
    seq(|s|, i requires 0 <= i < |s| => Raw(s[i]))
  }

  /** No digit of the input stands before two closing brackets of it. */
  predicate Clean(ps: seq<Piece>) {
    forall i | 0 <= i && i + 2 < |ps| && ps[i + 1] == Raw(']') && ps[i + 2] == Raw(']') ::
      ps[i].Raw? ==> !IsDigit(ps[i].c)
  }

  /** The values given a placeholder so far, in order, per kind: the n-th of a kind is number n. */
  type Lists = map<Kind, seq<string>>

  function ListOf(lists: Lists, kind: Kind): seq<string> {
    if kind in lists then lists[kind] else []
  }

  /** One piece with the given kinds put back. A number nobody was given is left as it is. */
  function UndonePiece(p: Piece, lists: Lists, kinds: set<Kind>): string {
    if p.Mark? && p.kind in kinds && 1 <= p.n <= |ListOf(lists, p.kind)| then ListOf(lists, p.kind)[p.n - 1]
    else Shown(p)
  }

  function Undone(ps: seq<Piece>, lists: Lists, kinds: set<Kind>): string {
    if ps == [] then "" else UndonePiece(ps[0], lists, kinds) + Undone(ps[1..], lists, kinds)
  }

  // ── Reading placeholders back ─────────────────────────────────────────

  /** The kind a text of placeholder form names, if it is one of ours. */
  function KindNamed(name: string): Option<Kind> {
    if name == "SECRET" then Some(Secret)
    else if name == "EMAIL" then Some(Email)
    else if name == "PHONE" then Some(Phone)
    else if name == "CARD" then Some(Card)
    else if name == "IBAN" then Some(Iban)
    else if name == "ID" then Some(NationalId)
    else if name == "IP" then Some(Ip)
    else if name == "PERSON" then Some(Person)
    else None
  }

  predicate MayRestore(placeholder: string, kinds: set<Kind>)
    requires |placeholder| >= 2
  {
    var kind := KindNamed(placeholder[2..2 + Capitals(placeholder[2..])]);
    kind.Some? && kind.value in kinds
  }

  /** Put values of the given kinds back. What is put back is not looked at again. */
  function RestoreText(s: string, originals: map<string, string>, kinds: set<Kind>): string
    decreases |s|
  {
    if s == [] then ""
    else
      var n := MatchLength(s);
      if n == 0 then [s[0]] + RestoreText(s[1..], originals, kinds)
      else
        (if n >= 2 && MayRestore(s[..n], kinds) && s[..n] in originals then originals[s[..n]] else s[..n])
        + RestoreText(s[n..], originals, kinds)
  }

  lemma {:induction false} CapitalsThen(name: string, rest: string)
    requires (forall i | 0 <= i < |name| :: IsCapital(name[i])) && rest != [] && !IsCapital(rest[0])
    ensures Capitals(name + rest) == |name|
  {
    if name == [] {
      assert name + rest == rest;
    } else {
      assert (name + rest)[1..] == name[1..] + rest;
      CapitalsThen(name[1..], rest);
    }
  }

  lemma {:induction false} NumeralsThen(digits: string, rest: string)
    requires AllDigits(digits) && rest != [] && !IsDigit(rest[0])
    ensures Numerals(digits + rest) == |digits|
  {
    if digits == [] {
      assert digits + rest == rest;
    } else {
      assert (digits + rest)[1..] == digits[1..] + rest;
      NumeralsThen(digits[1..], rest);
    }
  }

  lemma PlaceholderIsFound(kind: Kind, n: nat, rest: string)
    ensures MatchLength(PlaceholderText(kind, n) + rest) == |PlaceholderText(kind, n)|
    ensures Capitals(PlaceholderText(kind, n)[2..]) == |kind.Name()|
    ensures PlaceholderText(kind, n)[2..2 + |kind.Name()|] == kind.Name()
    ensures KindNamed(kind.Name()) == Some(kind)
  {
    hide *;
    NamesAreCapitals(kind);
    FormIsFound(kind.Name(), Digits(n), rest);
    TextOfForm(kind, n);
  }

  lemma TextOfForm(kind: Kind, n: nat)
    ensures PlaceholderText(kind, n) == "[[" + kind.Name() + "_" + Digits(n) + "]]"
  {
  }

  lemma NamesAreCapitals(kind: Kind)
    ensures kind.Name() != [] && forall i | 0 <= i < |kind.Name()| :: IsCapital(kind.Name()[i])
    ensures KindNamed(kind.Name()) == Some(kind)
  {
  }

  lemma FormIsFound(name: string, digits: string, rest: string)
    requires name != [] && forall i | 0 <= i < |name| :: IsCapital(name[i])
    requires digits != [] && AllDigits(digits)
    ensures var form := "[[" + name + "_" + digits + "]]";
            && MatchLength(form + rest) == |form|
            && Capitals(form[2..]) == |name| && form[2..2 + |name|] == name
  {
    var form := "[[" + name + "_" + digits + "]]";
    var s := form + rest;
    var afterName, afterDigits := "_" + digits + "]]" + rest, "]]" + rest;
    assert s[2..] == name + afterName;
    CapitalsThen(name, afterName);
    assert s[3 + |name|..] == digits + afterDigits;
    NumeralsThen(digits, afterDigits);
    assert s[3 + |name| + |digits|..] == afterDigits;
    assert form[2..] == name + ("_" + digits + "]]");
    CapitalsThen(name, "_" + digits + "]]");
  }

  /** The text begins with brackets, capitals, an underscore, digits and brackets. */
  ghost predicate BeginsWith(s: string, name: string, digits: string) {
    && "[[" + name + "_" + digits + "]]" <= s
    && name != "" && (forall c | c in name :: 'A' <= c <= 'Z')
    && digits != "" && (forall c | c in digits :: '0' <= c <= '9')
  }

  /** That and nothing else is the form of a placeholder. */
  lemma MatchesExactlyWhen(s: string)
    ensures MatchLength(s) > 0 <==> exists name, digits :: BeginsWith(s, name, digits)
    ensures forall name, digits | BeginsWith(s, name, digits) :: MatchLength(s) == |name| + |digits| + 5
  {
    hide BeginsWith, MatchLength;
    if MatchLength(s) > 0 {
      var a, d := MatchParts(s);
      MatchedText(s, a, d);
    }
    forall name, digits | BeginsWith(s, name, digits)
      ensures MatchLength(s) == |name| + |digits| + 5
    {
      BeginningMatches(s, name, digits);
    }
  }

  lemma MatchedText(s: string, a: nat, d: nat)
    requires a > 0 && d > 0 && 5 + a + d <= |s|
    requires s[0] == '[' && s[1] == '[' && s[2 + a] == '_' && s[3 + a + d] == ']' && s[4 + a + d] == ']'
    requires forall i | 2 <= i < 2 + a :: IsCapital(s[i])
    requires forall i | 3 + a <= i < 3 + a + d :: IsDigit(s[i])
    ensures BeginsWith(s, s[2..2 + a], s[3 + a..3 + a + d])
  {
    var name, digits := s[2..2 + a], s[3 + a..3 + a + d];
    assert s[..2] == "[[" && s[2 + a..3 + a] == "_" && s[3 + a + d..5 + a + d] == "]]";
    assert "[[" + name + "_" + digits + "]]" == s[..2] + name + s[2 + a..3 + a] + digits + s[3 + a + d..5 + a + d];
    assert s[..2] + name == s[..2 + a] && s[..2 + a] + s[2 + a..3 + a] == s[..3 + a];
    assert s[..3 + a] + digits == s[..3 + a + d] && s[..3 + a + d] + s[3 + a + d..5 + a + d] == s[..5 + a + d];
  }

  lemma BeginningMatches(s: string, name: string, digits: string)
    requires BeginsWith(s, name, digits)
    ensures MatchLength(s) == |name| + |digits| + 5
  {
    var form := "[[" + name + "_" + digits + "]]";
    assert s == form + s[|form|..];
    assert forall i | 0 <= i < |name| :: name[i] in name;
    FormIsFound(name, digits, s[|form|..]);
  }

  /** By default emails, phone numbers, persons and addresses are put back; a secret, a card, an account are not. */
  lemma PersonalIsPutBack(kind: Kind, n: nat)
    ensures MayRestore(PlaceholderText(kind, n), PERSONAL) <==>
              kind == Email || kind == Phone || kind == Person || kind == Ip
  {
    hide MatchLength, Digits, PlaceholderText;
    PlaceholderIsFound(kind, n, "");
  }

  /** A placeholder says its kind and its number: no two are the same text. */
  lemma PlaceholdersAreDistinct(k: Kind, m: nat, l: Kind, n: nat)
    requires PlaceholderText(k, m) == PlaceholderText(l, n)
    ensures k == l && m == n
  {
    PlaceholderIsFound(k, m, "");
    PlaceholderIsFound(l, n, "");
    var s := PlaceholderText(k, m);
    assert s[3 + |k.Name()|..|s| - 2] == Digits(m);
    assert s[3 + |l.Name()|..|s| - 2] == Digits(n);
    DigitsAreDistinct(m, n);
  }

  /** Up to the first opening bracket, what is shown is characters of the input. */
  lemma {:induction false} ShownWithoutBrackets(ps: seq<Piece>, j: nat)
    requires j <= |Render(ps)| && forall i | 0 <= i < j :: Render(ps)[i] != '['
    ensures j <= |ps| && forall i | 0 <= i < j :: ps[i] == Raw(Render(ps)[i])
    decreases j
  {
    if j > 0 {
      var s := Render(ps);
      assert s[0] == Shown(ps[0])[0];
      assert ps[0] == Raw(s[0]);
      assert forall i | 0 <= i < j - 1 :: Render(ps[1..])[i] == s[i + 1];
      ShownWithoutBrackets(ps[1..], j - 1);
    }
  }

  /** No placeholder begins at a character of the input. */
  lemma NothingBeginsAtRaw(ps: seq<Piece>)
    requires Clean(ps) && ps != [] && ps[0].Raw?
    ensures MatchLength(Render(ps)) == 0
  {
    if MatchLength(Render(ps)) > 0 {
      var i := RawUpToBrackets(ps);
      NoDigitBefore(ps, i);
      assert false;
    }
  }

  /** A placeholder that began at a character of the input would be made of characters of the input. */
  lemma RawUpToBrackets(ps: seq<Piece>) returns (k: nat)
    requires ps != [] && ps[0].Raw? && MatchLength(Render(ps)) > 0
    ensures k + 2 < |ps| && ps[k].Raw? && IsDigit(ps[k].c) && ps[k + 1] == Raw(']') && ps[k + 2] == Raw(']')
  {
    hide Render, Shown, MatchLength, Capitals, Numerals;
    var s := Render(ps);
    var a, d := MatchParts(s);
    TwoBrackets(ps);
    k := 2 + a + d;
    var rest, t := ps[2..], Render(ps[2..]);
    forall i | 0 <= i < a + d + 3
      ensures t[i] == s[i + 2]
    {
      assert s[2..][i] == s[i + 2];
    }
    ShownWithoutBrackets(rest, a + d + 3);
    assert rest[a + d] == ps[k] && rest[a + d + 1] == ps[k + 1] && rest[a + d + 2] == ps[k + 2];
  }

  lemma TwoBrackets(ps: seq<Piece>)
    requires ps != [] && ps[0].Raw? && |Render(ps)| >= 3 && Render(ps)[1] == '[' && IsCapital(Render(ps)[2])
    ensures |ps| >= 2 && Render(ps)[2..] == Render(ps[2..])
  {
    var s, rest := Render(ps), ps[1..];
    RawIsShown(ps);
    assert s[1..] == Render(rest) && Render(rest)[0] == s[1] && Render(rest)[1] == s[2];
    BracketThenCapital(rest);
    RawIsShown(rest);
    hide Render, Shown, IsCapital;
    assert rest[1..] == ps[2..] && s[2..] == Render(rest)[1..];
  }

  lemma RawIsShown(ps: seq<Piece>)
    requires ps != [] && ps[0].Raw?
    ensures Render(ps) == [ps[0].c] + Render(ps[1..])
  {
  }

  lemma NoDigitBefore(ps: seq<Piece>, i: nat)
    requires Clean(ps) && i + 2 < |ps|
    ensures ps[i + 1] == Raw(']') && ps[i + 2] == Raw(']') && ps[i].Raw? ==> !IsDigit(ps[i].c)
  {
  }

  /** A bracket with a capital after it is not the first of a placeholder. */
  lemma BracketThenCapital(ps: seq<Piece>)
    requires |Render(ps)| >= 2 && Render(ps)[0] == '[' && IsCapital(Render(ps)[1])
    ensures ps != [] && ps[0] == Raw('[')
  {
    assert Render(ps) == Shown(ps[0]) + Render(ps[1..]);
    if ps[0].Mark? {
      MarkBegins(ps[0]);
      assert false;
    }
  }

  lemma MarkBegins(p: Piece)
    requires p.Mark?
    ensures |Shown(p)| >= 2 && Shown(p)[0] == '[' && Shown(p)[1] == '['
  {
  }

  /** The originals are those of the lists, each under the text of its number. */
  ghost predicate Keeps(originals: map<string, string>, lists: Lists) {
    && (forall kind, n: nat | 1 <= n <= |ListOf(lists, kind)| ::
          PlaceholderText(kind, n) in originals
          && originals[PlaceholderText(kind, n)] == ListOf(lists, kind)[n - 1])
    && (forall name | name in originals ::
          exists kind, n: nat :: 1 <= n <= |ListOf(lists, kind)| && name == PlaceholderText(kind, n))
  }

  lemma KnownExactlyWhenGiven(originals: map<string, string>, lists: Lists, kind: Kind, n: nat)
    requires Keeps(originals, lists)
    ensures PlaceholderText(kind, n) in originals <==> 1 <= n <= |ListOf(lists, kind)|
    ensures PlaceholderText(kind, n) in originals ==>
              originals[PlaceholderText(kind, n)] == ListOf(lists, kind)[n - 1]
  {
    if PlaceholderText(kind, n) in originals {
      var k, m: nat :| 1 <= m <= |ListOf(lists, k)| && PlaceholderText(kind, n) == PlaceholderText(k, m);
      PlaceholdersAreDistinct(kind, n, k, m);
    }
  }

  /** Restoring redacted text undoes exactly the replacements of the given kinds, each to its own value. */
  lemma {:induction false} RestoringUndoes(ps: seq<Piece>, originals: map<string, string>, lists: Lists, kinds: set<Kind>)
    requires Clean(ps) && Keeps(originals, lists)
    ensures RestoreText(Render(ps), originals, kinds) == Undone(ps, lists, kinds)
    decreases |ps|
  {
    hide Keeps, MatchLength, PlaceholderText;
    if ps != [] {
      var rest := ps[1..];
      CleanTail(ps);
      RestoringUndoes(rest, originals, lists, kinds);
      match ps[0]
      case Raw(c) =>
        NothingBeginsAtRaw(ps);
        assert Render(ps)[1..] == Render(rest);
      case Mark(kind, n) =>
        MarkIsRestored(kind, n, Render(rest), originals, lists, kinds);
    }
  }

  lemma CleanTail(ps: seq<Piece>)
    requires Clean(ps) && ps != []
    ensures Clean(ps[1..])
  {
    var rest := ps[1..];
    forall i | 0 <= i && i + 2 < |rest| && rest[i + 1] == Raw(']') && rest[i + 2] == Raw(']')
      ensures rest[i].Raw? ==> !IsDigit(rest[i].c)
    {
      assert rest[i] == ps[i + 1] && ps[(i + 1) + 1] == Raw(']') && ps[(i + 1) + 2] == Raw(']');
    }
  }

  lemma MarkIsRestored(kind: Kind, n: nat, rest: string, originals: map<string, string>, lists: Lists, kinds: set<Kind>)
    requires Keeps(originals, lists)
    ensures RestoreText(PlaceholderText(kind, n) + rest, originals, kinds)
              == UndonePiece(Mark(kind, n), lists, kinds) + RestoreText(rest, originals, kinds)
  {
    hide MatchLength, PlaceholderText, Keeps;
    var name := PlaceholderText(kind, n);
    var s := name + rest;
    PlaceholderIsFound(kind, n, rest);
    KnownExactlyWhenGiven(originals, lists, kind, n);
    assert s[..|name|] == name && s[|name|..] == rest;
    NamesAreLong(kind, n);
  }

  lemma NamesAreLong(kind: Kind, n: nat)
    ensures |PlaceholderText(kind, n)| > 2
  {
  }

  // ── Replacing stretches ───────────────────────────────────────────────

  /** A stretch of pieces, from `lo` up to `hi`. */
  datatype Span = Span(lo: nat, hi: nat)

  /** Stretches as a pattern finds them: left to right, not overlapping. */
  predicate InOrder(spans: seq<Span>, from: nat, length: nat) {
    if spans == [] then from <= length
    else from <= spans[0].lo <= spans[0].hi && InOrder(spans[1..], spans[0].hi, length)
  }

  lemma InOrderFits(spans: seq<Span>, from: nat, length: nat)
    requires InOrder(spans, from, length)
    ensures from <= length && forall s | s in spans :: from <= s.lo <= s.hi <= length
  {
    if spans != [] {
      InOrderFits(spans[1..], spans[0].hi, length);
    }
  }

  function NumberOf(list: seq<string>, value: string): (n: nat)
    requires value in list
    ensures 1 <= n <= |list| && list[n - 1] == value && value !in list[..n - 1]
  {
    if list[0] == value then 1 else 1 + NumberOf(list[1..], value)
  }

  /** The pieces from `from` on, with each stretch replaced by the placeholder of its text. */
  function Swapped(ps: seq<Piece>, from: nat, spans: seq<Span>, kind: Kind, list: seq<string>): seq<Piece>
    requires InOrder(spans, from, |ps|) && from <= |ps|
    requires forall s | s in spans :: s.lo <= s.hi <= |ps| && Render(ps[s.lo..s.hi]) in list
    decreases |spans|
  {
    if spans == [] then ps[from..]
    else
      var s := spans[0];
      ps[from..s.lo] + [Mark(kind, NumberOf(list, Render(ps[s.lo..s.hi])))] + Swapped(ps, s.hi, spans[1..], kind, list)
  }

  /** Every stretch is characters of the input only. */
  predicate OverRaw(ps: seq<Piece>, spans: seq<Span>) {
    forall s | s in spans :: forall i | s.lo <= i < s.hi && i < |ps| :: ps[i].Raw?
  }

  lemma {:induction false} UndoneConcat(a: seq<Piece>, b: seq<Piece>, lists: Lists, kinds: set<Kind>)
    ensures Undone(a + b, lists, kinds) == Undone(a, lists, kinds) + Undone(b, lists, kinds)
  {
    if a == [] {
      assert a + b == b;
    } else {
      assert (a + b)[1..] == a[1..] + b;
      UndoneConcat(a[1..], b, lists, kinds);
    }
  }

  lemma UndoneThree(a: seq<Piece>, b: seq<Piece>, c: seq<Piece>, lists: Lists, kinds: set<Kind>)
    ensures Undone(a + b + c, lists, kinds) == Undone(a, lists, kinds) + Undone(b, lists, kinds) + Undone(c, lists, kinds)
  {
    UndoneConcat(a + b, c, lists, kinds);
    UndoneConcat(a, b, lists, kinds);
  }

  lemma {:induction false} UndoneRaw(ps: seq<Piece>, lists: Lists, kinds: set<Kind>)
    requires forall p | p in ps :: p.Raw?
    ensures Undone(ps, lists, kinds) == Render(ps)
  {
    if ps != [] {
      UndoneRaw(ps[1..], lists, kinds);
    }
  }

  /** Replacing stretches of the input by a kind that is put back changes nothing in what is restored. */
  lemma {:induction false} SwappingIsUndone(
      ps: seq<Piece>, from: nat, spans: seq<Span>, kind: Kind, lists: Lists, kinds: set<Kind>)
    requires from <= |ps| && InOrder(spans, from, |ps|) && OverRaw(ps, spans) && kind in kinds
    requires forall s | s in spans :: s.lo <= s.hi <= |ps| && Render(ps[s.lo..s.hi]) in ListOf(lists, kind)
    ensures Undone(Swapped(ps, from, spans, kind, ListOf(lists, kind)), lists, kinds) == Undone(ps[from..], lists, kinds)
    decreases |spans|
  {
    hide Undone, Render, UndonePiece;
    if spans != [] {
      var s := spans[0];
      assert s in spans;
      InOrderFits(spans, from, |ps|);
      var mark := Mark(kind, NumberOf(ListOf(lists, kind), Render(ps[s.lo..s.hi])));
      var rest := Swapped(ps, s.hi, spans[1..], kind, ListOf(lists, kind));
      SwappingIsUndone(ps, s.hi, spans[1..], kind, lists, kinds);
      MarkStandsFor(ps[s.lo..s.hi], kind, lists, kinds);
      assert ps[from..] == ps[from..s.lo] + ps[s.lo..s.hi] + ps[s.hi..];
      OneForTheOther(ps[from..s.lo], [mark], rest, ps[s.lo..s.hi], ps[s.hi..], lists, kinds);
    }
  }

  lemma MarkStandsFor(part: seq<Piece>, kind: Kind, lists: Lists, kinds: set<Kind>)
    requires (forall i | 0 <= i < |part| :: part[i].Raw?) && Render(part) in ListOf(lists, kind) && kind in kinds
    ensures Undone([Mark(kind, NumberOf(ListOf(lists, kind), Render(part)))], lists, kinds) == Undone(part, lists, kinds)
  {
    UndoneRaw(part, lists, kinds);
    UndoneAlone(Mark(kind, NumberOf(ListOf(lists, kind), Render(part))), lists, kinds);
    hide Undone, Render;
  }

  lemma UndoneAlone(p: Piece, lists: Lists, kinds: set<Kind>)
    ensures Undone([p], lists, kinds) == UndonePiece(p, lists, kinds)
  {
    hide UndonePiece;
    assert [p][1..] == [];
  }

  lemma OneForTheOther(
      a: seq<Piece>, b: seq<Piece>, c: seq<Piece>, b': seq<Piece>, c': seq<Piece>, lists: Lists, kinds: set<Kind>)
    requires Undone(b, lists, kinds) == Undone(b', lists, kinds)
    requires Undone(c, lists, kinds) == Undone(c', lists, kinds)
    ensures Undone(a + b + c, lists, kinds) == Undone(a + b' + c', lists, kinds)
  {
    UndoneThree(a, b, c, lists, kinds);
    UndoneThree(a, b', c', lists, kinds);
  }

  lemma CleanSlice(ps: seq<Piece>, lo: nat, hi: nat)
    requires Clean(ps) && lo <= hi <= |ps|
    ensures Clean(ps[lo..hi])
  {
    var part := ps[lo..hi];
    forall i | 0 <= i && i + 2 < |part| && part[i + 1] == Raw(']') && part[i + 2] == Raw(']')
      ensures part[i].Raw? ==> !IsDigit(part[i].c)
    {
      assert part[i] == ps[lo + i] && ps[(lo + i) + 1] == Raw(']') && ps[(lo + i) + 2] == Raw(']');
    }
  }

  lemma CleanAroundMark(a: seq<Piece>, m: Piece, b: seq<Piece>)
    requires Clean(a) && Clean(b) && m.Mark?
    ensures Clean(a + [m] + b)
  {
    var all := a + [m] + b;
    forall i | 0 <= i && i + 2 < |all| && all[i + 1] == Raw(']') && all[i + 2] == Raw(']')
      ensures all[i].Raw? ==> !IsDigit(all[i].c)
    {
      if i + 2 < |a| {
        assert a[i + 1] == Raw(']') && a[i + 2] == Raw(']');
      } else if i > |a| {
        var j := i - |a| - 1;
        assert all[i] == b[j] && b[j + 1] == Raw(']') && b[j + 2] == Raw(']');
      } else {
        assert all[|a|] == m;
      }
    }
  }

  lemma {:induction false} SwappedIsClean(ps: seq<Piece>, from: nat, spans: seq<Span>, kind: Kind, list: seq<string>)
    requires Clean(ps) && from <= |ps| && InOrder(spans, from, |ps|)
    requires forall s | s in spans :: s.lo <= s.hi <= |ps| && Render(ps[s.lo..s.hi]) in list
    ensures Clean(Swapped(ps, from, spans, kind, list))
    decreases |spans|
  {
    hide Clean;
    if spans == [] {
      CleanSlice(ps, from, |ps|);
      assert ps[from..|ps|] == ps[from..];
    } else {
      var s := spans[0];
      SwappedIsClean(ps, s.hi, spans[1..], kind, list);
      CleanSlice(ps, from, s.lo);
      CleanAroundMark(
        ps[from..s.lo], Mark(kind, NumberOf(list, Render(ps[s.lo..s.hi]))), Swapped(ps, s.hi, spans[1..], kind, list));
    }
  }

  lemma EscapedIsClean(s: string)
    ensures Clean(AsPieces(Escape(s)))
    ensures Render(AsPieces(Escape(s))) == Escape(s)
  {
    SpacedPairs(Spaced(s, '['), ']');
    var t := Escape(s);
    var ps := AsPieces(t);
    forall i | 0 <= i && i + 2 < |ps| && ps[i + 1] == Raw(']') && ps[i + 2] == Raw(']')
      ensures !IsDigit(ps[i].c)
    {
      assert t[i + 1] == ']' && t[i + 2] == ']';
    }
    RenderOfRaw(t);
  }

  lemma {:induction false} RenderOfRaw(s: string)
    ensures Render(AsPieces(s)) == s
  {
    if s != [] {
      assert AsPieces(s)[1..] == AsPieces(s[1..]);
      RenderOfRaw(s[1..]);
    }
  }
}
