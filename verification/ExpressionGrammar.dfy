/**
 The grammar, stated by splitting a token sequence rather than by reading it, as it is documented
 and as it is accepted; the proof that the parser accepts exactly the second with exactly one tree
 for each sequence; and what of the first that is.
 */
module ExpressionGrammar {
  import opened Wrappers
  import opened Json
  import opened Expressions

  // ── The grammar ───────────────────────────────────────────────────────

  /**
   The grammar as it is documented, with lists of any literals and names after dots; and as it is
   accepted, with lists of scalars and any word after a dot.
   */
  datatype Dialect = Documented | Accepted

  /** or := and ("or" and)*, grouping to the left. */
  ghost predicate IsOr(d: Dialect, ts: seq<Token>, e: Expr)
    decreases |ts|, 4
  {
    || IsAnd(d, ts, e)
    || (e.Or? && exists k | 0 <= k < |ts| ::
          ts[k] == OR && IsOr(d, ts[..k], e.left) && IsAnd(d, ts[k + 1..], e.right))
  }

  /** and := unary ("and" unary)*, grouping to the left. */
  ghost predicate IsAnd(d: Dialect, ts: seq<Token>, e: Expr)
    decreases |ts|, 3
  {
    || IsUnary(d, ts, e)
    || (e.And? && exists k | 0 <= k < |ts| ::
          ts[k] == AND && IsAnd(d, ts[..k], e.left) && IsUnary(d, ts[k + 1..], e.right))
  }

  /** unary := "not" unary | compare */
  ghost predicate IsUnary(d: Dialect, ts: seq<Token>, e: Expr)
    decreases |ts|, 2
  {
    || IsCompare(d, ts, e)
    || (e.Not? && Starts(ts, NOT) && IsUnary(d, ts[1..], e.operand))
  }

  /** The tokens of a comparison operator. */
  function Symbol(op: CmpOp): (ts: seq<Token>)
    ensures 1 <= |ts| <= 2
  {
    match op
    case Rel(r) => [Op(r)]
    case In => [IN]
    case NotIn => [NOT, IN]
  }

  ghost predicate SplitsAt(ts: seq<Token>, k: nat, op: CmpOp) {
    k + |Symbol(op)| <= |ts| && ts[k..k + |Symbol(op)|] == Symbol(op)
  }

  /** compare := operand (OP operand)? */
  ghost predicate IsCompare(d: Dialect, ts: seq<Token>, e: Expr)
    decreases |ts|, 1
  {
    || IsOperand(d, ts, e)
    || (e.Compare? && exists k: nat | k < |ts| && SplitsAt(ts, k, e.op) ::
          IsOperand(d, ts[..k], e.left) && IsOperand(d, ts[k + |Symbol(e.op)|..], e.right))
  }

  /** Scalars at the even places, commas between. */
  ghost predicate IsItems(ts: seq<Token>, items: seq<Value>) {
    && |items| > 0
    && |ts| == 2 * |items| - 1
    && (forall j | 0 <= j < |items| :: ScalarOf(ts[2 * j]) == Some(items[j]))
    && (forall j | 0 < j < |items| :: ts[2 * j - 1] == COMMA)
  }

  /** literal ("," literal)*, each of them a list as it may be. */
  ghost predicate IsNested(ts: seq<Token>, items: seq<Value>)
    decreases |ts|, 1
  {
    && items != []
    && if |items| == 1 then IsLiteral(Documented, ts, items[0])
       else exists k | 0 <= k < |ts| ::
         ts[k] == COMMA && IsLiteral(Documented, ts[..k], items[0]) && IsNested(ts[k + 1..], items[1..])
  }

  ghost predicate IsLiteral(d: Dialect, ts: seq<Token>, v: Value)
    decreases |ts|, 0
  {
    || (|ts| == 1 && ScalarOf(ts[0]) == Some(v))
    || (&& |ts| >= 2 && ts[0] == LIST && ts[|ts| - 1] == END_LIST && v.Arr?
        && (if |ts| == 2 then v.items == []
            else if d.Documented? then IsNested(ts[1..|ts| - 1], v.items)
            else IsItems(ts[1..|ts| - 1], v.items)))
  }

  /** ("." NAME | "[" (string | integer) "]")* */
  ghost predicate IsParts(d: Dialect, ts: seq<Token>, parts: seq<Key>)
    decreases |ts|
  {
    if parts == [] then ts == []
    else
      || (&& |ts| >= 2 && ts[0] == DOT && NameKey(ts[1]) == Some(parts[0]) && (d.Documented? ==> ts[1].Name?)
          && IsParts(d, ts[2..], parts[1..]))
      || (&& |ts| >= 3 && ts[0] == LIST && IndexKey(ts[1]) == Some(parts[0]) && ts[2] == END_LIST
          && IsParts(d, ts[3..], parts[1..]))
  }

  /** operand := literal | path | "(" expr ")" */
  ghost predicate IsOperand(d: Dialect, ts: seq<Token>, e: Expr)
    decreases |ts|, 0
  {
    || (e.Literal? && IsLiteral(d, ts, e.v))
    || (e.Path? && ts != [] && ts[0] == Name(e.root) && IsParts(d, ts[1..], e.parts))
    || (|ts| >= 2 && ts[0] == OPEN && ts[|ts| - 1] == CLOSE && IsOr(d, ts[1..|ts| - 1], e))
  }

  // ── Building up derivations ───────────────────────────────────────────

  lemma JoinOr(a: seq<Token>, e: Expr, b: seq<Token>, f: Expr)
    requires IsOr(Accepted, a, e) && IsAnd(Accepted, b, f)
    ensures IsOr(Accepted, a + [OR] + b, Or(e, f))
  {
    var ts, k := a + [OR] + b, |a|;
    assert ts[..k] == a && ts[k] == OR && ts[k + 1..] == b;
  }

  lemma JoinAnd(a: seq<Token>, e: Expr, b: seq<Token>, f: Expr)
    requires IsAnd(Accepted, a, e) && IsUnary(Accepted, b, f)
    ensures IsAnd(Accepted, a + [AND] + b, And(e, f))
  {
    var ts, k := a + [AND] + b, |a|;
    assert ts[..k] == a && ts[k] == AND && ts[k + 1..] == b;
  }

  lemma JoinCompare(a: seq<Token>, e: Expr, op: CmpOp, b: seq<Token>, f: Expr)
    requires IsOperand(Accepted, a, e) && IsOperand(Accepted, b, f)
    ensures IsCompare(Accepted, a + Symbol(op) + b, Compare(op, e, f))
  {
    var ts, k, n := a + Symbol(op) + b, |a|, |Symbol(op)|;
    assert ts[..k] == a && ts[k..k + n] == Symbol(op) && ts[k + n..] == b;
    assert SplitsAt(ts, k, op);
  }

  lemma Negate(ts: seq<Token>, e: Expr)
    requires IsUnary(Accepted, ts, e)
    ensures IsUnary(Accepted, [NOT] + ts, Not(e))
  {
    assert ([NOT] + ts)[1..] == ts;
  }

  lemma InParentheses(ts: seq<Token>, e: Expr)
    requires IsOr(Accepted, ts, e)
    ensures IsOperand(Accepted, [OPEN] + ts + [CLOSE], e)
  {
    var all := [OPEN] + ts + [CLOSE];
    assert all[1..|all| - 1] == ts;
  }

  lemma OperandsAreExpressions(ts: seq<Token>, e: Expr)
    requires IsOperand(Accepted, ts, e)
    ensures IsCompare(Accepted, ts, e) && IsUnary(Accepted, ts, e) && IsAnd(Accepted, ts, e) && IsOr(Accepted, ts, e)
  {
    assert IsCompare(Accepted, ts, e);
    assert IsUnary(Accepted, ts, e);
    assert IsAnd(Accepted, ts, e);
  }

  lemma AndsAreExpressions(ts: seq<Token>, e: Expr)
    requires IsAnd(Accepted, ts, e) || IsUnary(Accepted, ts, e)
    ensures IsOr(Accepted, ts, e)
  {
    assert IsAnd(Accepted, ts, e);
  }

  lemma ComparesAreExpressions(ts: seq<Token>, e: Expr)
    requires IsCompare(Accepted, ts, e)
    ensures IsOr(Accepted, ts, e)
  {
    assert IsUnary(Accepted, ts, e);
    assert IsAnd(Accepted, ts, e);
  }

  // ── What the parser returns is in the grammar ─────────────────────────
  // Each lemma gives the tokens that were used up.

  lemma {:induction false} OrIsSound(ts: seq<Token>) returns (used: seq<Token>)
    requires ParseOr(ts).Ok?
    ensures ts == used + ParseOr(ts).value.1 && IsOr(Accepted, used, ParseOr(ts).value.0)
    decreases |ts|, 5
  {
    var first := AndIsSound(ts);
    var (e, rest) := ParseAnd(ts).value;
    used := OrLoopIsSound(first, e, rest);
  }

  lemma {:induction false} OrLoopIsSound(done: seq<Token>, e: Expr, ts: seq<Token>) returns (used: seq<Token>)
    requires IsOr(Accepted, done, e) && OrLoop(e, ts).Ok?
    ensures done + ts == used + OrLoop(e, ts).value.1 && IsOr(Accepted, used, OrLoop(e, ts).value.0)
    decreases |ts|, 6
  {
    if Starts(ts, OR) {
      var more := AndIsSound(ts[1..]);
      var (right, rest) := ParseAnd(ts[1..]).value;
      JoinOr(done, e, more, right);
      used := OrLoopIsSound(done + [OR] + more, Or(e, right), rest);
      assert done + ts == done + [OR] + more + rest;
    } else {
      used := done;
    }
  }

  lemma {:induction false} AndIsSound(ts: seq<Token>) returns (used: seq<Token>)
    requires ParseAnd(ts).Ok?
    ensures ts == used + ParseAnd(ts).value.1 && IsAnd(Accepted, used, ParseAnd(ts).value.0)
    decreases |ts|, 3
  {
    var first := UnaryIsSound(ts);
    var (e, rest) := ParseUnary(ts).value;
    used := AndLoopIsSound(first, e, rest);
  }

  lemma {:induction false} AndLoopIsSound(done: seq<Token>, e: Expr, ts: seq<Token>) returns (used: seq<Token>)
    requires IsAnd(Accepted, done, e) && AndLoop(e, ts).Ok?
    ensures done + ts == used + AndLoop(e, ts).value.1 && IsAnd(Accepted, used, AndLoop(e, ts).value.0)
    decreases |ts|, 4
  {
    if Starts(ts, AND) {
      var more := UnaryIsSound(ts[1..]);
      var (right, rest) := ParseUnary(ts[1..]).value;
      JoinAnd(done, e, more, right);
      used := AndLoopIsSound(done + [AND] + more, And(e, right), rest);
      assert done + ts == done + [AND] + more + rest;
    } else {
      used := done;
    }
  }

  lemma {:induction false} UnaryIsSound(ts: seq<Token>) returns (used: seq<Token>)
    requires ParseUnary(ts).Ok?
    ensures ts == used + ParseUnary(ts).value.1 && IsUnary(Accepted, used, ParseUnary(ts).value.0)
    decreases |ts|, 2
  {
    if Starts(ts, NOT) {
      var inner := UnaryIsSound(ts[1..]);
      Negate(inner, ParseUnary(ts[1..]).value.0);
      used := [NOT] + inner;
    } else {
      used := CompareIsSound(ts);
    }
  }

  lemma {:induction false} CompareIsSound(ts: seq<Token>) returns (used: seq<Token>)
    requires ParseCompare(ts).Ok?
    ensures ts == used + ParseCompare(ts).value.1 && IsCompare(Accepted, used, ParseCompare(ts).value.0)
    decreases |ts|, 1
  {
    hide IsOperand, IsCompare, ParseOperand, ParseOperator, Symbol;
    var first := OperandIsSound(ts);
    var (left, rest) := ParseOperand(ts).value;
    var (op, rest') := ParseOperator(rest).value;
    if op.Some? {
      OperatorIsSound(rest);
      var second := OperandIsSound(rest');
      JoinCompare(first, left, op.value, second, ParseOperand(rest').value.0);
      used := first + Symbol(op.value) + second;
      assert ts == first + (Symbol(op.value) + (second + ParseOperand(rest').value.1));
    } else {
      OperandsAreExpressions(first, left);
      used := first;
    }
  }

  lemma OperatorIsSound(ts: seq<Token>)
    requires ParseOperator(ts).Ok? && ParseOperator(ts).value.0.Some?
    ensures ts == Symbol(ParseOperator(ts).value.0.value) + ParseOperator(ts).value.1
  {
  }

  lemma {:induction false} OperandIsSound(ts: seq<Token>) returns (used: seq<Token>)
    requires ParseOperand(ts).Ok?
    ensures ts == used + ParseOperand(ts).value.1 && IsOperand(Accepted, used, ParseOperand(ts).value.0)
    decreases |ts|, 0
  {
    if ts[0].Lit? || KeywordValue(ts[0]).Some? {
      used := ts[..1];
    } else if ts[0] == OPEN {
      var inner := OrIsSound(ts[1..]);
      var (e, rest) := ParseOr(ts[1..]).value;
      InParentheses(inner, e);
      used := [OPEN] + inner + [CLOSE];
    } else if ts[0] == LIST {
      used := ListIsSound(ts);
    } else {
      var parts := PartsAreSound([], ts[1..]);
      var keys := ParseParts([], ts[1..]).value.0;
      used := [ts[0]] + parts;
      assert used[1..] == parts && keys[0..] == keys;
    }
  }

  lemma ListIsSound(ts: seq<Token>) returns (used: seq<Token>)
    requires Starts(ts, LIST) && ParseOperand(ts).Ok?
    ensures ts == used + ParseOperand(ts).value.1 && IsOperand(Accepted, used, ParseOperand(ts).value.0)
  {
    if Starts(ts[1..], END_LIST) {
      used := [LIST, END_LIST];
    } else {
      var inner := ItemsAreSound([], [], ts[1..]);
      used := [LIST] + inner + [END_LIST];
      assert used[1..|used| - 1] == inner;
      assert [] + ts[1..] == ts[1..];
    }
  }

  /** The items read before, each followed by a comma. */
  predicate ItemsSoFar(done: seq<Token>, items: seq<Value>) {
    && |done| == 2 * |items|
    && forall j | 0 <= j < |items| :: ScalarOf(done[2 * j]) == Some(items[j]) && done[2 * j + 1] == COMMA
  }

  lemma OneMoreItem(done: seq<Token>, items: seq<Value>, t: Token)
    requires ItemsSoFar(done, items) && ScalarOf(t).Some?
    ensures IsItems(done + [t], items + [ScalarOf(t).value])
    ensures ItemsSoFar(done + [t, COMMA], items + [ScalarOf(t).value])
  {
    var ts, all := done + [t], items + [ScalarOf(t).value];
    forall j | 0 < j < |all|
      ensures ts[2 * j - 1] == COMMA
    {
      assert done[2 * (j - 1) + 1] == COMMA;
    }
  }

  lemma {:induction false} ItemsAreSound(done: seq<Token>, items: seq<Value>, ts: seq<Token>) returns (used: seq<Token>)
    requires ParseItems(items, ts).Ok? && ItemsSoFar(done, items)
    ensures done + ts == used + [END_LIST] + ParseItems(items, ts).value.1
    ensures IsItems(used, ParseItems(items, ts).value.0)
    decreases |ts|
  {
    OneMoreItem(done, items, ts[0]);
    if Starts(ts[1..], END_LIST) {
      used := done + [ts[0]];
    } else {
      var rest := Expect(ts[1..], COMMA).value;
      used := ItemsAreSound(done + [ts[0], COMMA], items + [ScalarOf(ts[0]).value], rest);
      assert done + ts == done + [ts[0], COMMA] + rest;
    }
  }

  lemma {:induction false} PartsAreSound(parts: seq<Key>, ts: seq<Token>) returns (used: seq<Token>)
    requires ParseParts(parts, ts).Ok?
    ensures ts == used + ParseParts(parts, ts).value.1
    ensures parts <= ParseParts(parts, ts).value.0
    ensures IsParts(Accepted, used, ParseParts(parts, ts).value.0[|parts|..])
    decreases |ts|
  {
    hide NameKey, IndexKey;
    var all := ParseParts(parts, ts).value.0;
    if Starts(ts, DOT) {
      var key := NameKey(ts[1]).value;
      var more := PartsAreSound(parts + [key], ts[2..]);
      used := ts[..2] + more;
      assert used[2..] == more;
      assert all[|parts|..] == [key] + all[|parts| + 1..];
    } else if Starts(ts, LIST) {
      var key := IndexKey(ts[1]).value;
      var more := PartsAreSound(parts + [key], ts[3..]);
      used := ts[..3] + more;
      assert used[3..] == more;
      assert all[|parts|..] == [key] + all[|parts| + 1..];
    } else {
      used := [];
    }
  }

  // ── Everything in the grammar is parsed, to that tree ─────────────────

  /** What may come after a complete `and` operand without being read as part of it. */
  predicate Follows(rest: seq<Token>) {
    rest == [] || rest[0] == OR || rest[0] == AND || rest[0] == CLOSE
  }

  predicate EndsOperand(rest: seq<Token>) {
    rest == [] || (rest[0] != DOT && rest[0] != LIST)
  }

  lemma {:induction false} OrIsComplete(ts: seq<Token>, e: Expr, rest: seq<Token>)
    requires IsOr(Accepted, ts, e) && Follows(rest) && !Starts(rest, AND)
    ensures ParseOr(ts + rest) == OrLoop(e, rest)
    decreases |ts|, 4
  {
    if IsAnd(Accepted, ts, e) {
      AndIsComplete(ts, e, rest);
    } else {
      var a, b := SplitOr(Accepted, ts, e);
      assert ts + rest == a + ([OR] + b + rest);
      OrIsComplete(a, e.left, [OR] + b + rest);
      assert ([OR] + b + rest)[1..] == b + rest;
      AndIsComplete(b, e.right, rest);
    }
  }

  lemma SplitOr(d: Dialect, ts: seq<Token>, e: Expr) returns (a: seq<Token>, b: seq<Token>)
    requires IsOr(d, ts, e) && !IsAnd(d, ts, e)
    ensures e.Or? && ts == a + [OR] + b && IsOr(d, a, e.left) && IsAnd(d, b, e.right)
  {
    var k :| 0 <= k < |ts| && ts[k] == OR && IsOr(d, ts[..k], e.left) && IsAnd(d, ts[k + 1..], e.right);
    a, b := ts[..k], ts[k + 1..];
  }

  lemma {:induction false} AndIsComplete(ts: seq<Token>, e: Expr, rest: seq<Token>)
    requires IsAnd(Accepted, ts, e) && Follows(rest)
    ensures ParseAnd(ts + rest) == AndLoop(e, rest)
    decreases |ts|, 3
  {
    if IsUnary(Accepted, ts, e) {
      UnaryIsComplete(ts, e, rest);
    } else {
      var a, b := SplitAnd(Accepted, ts, e);
      assert ts + rest == a + ([AND] + b + rest);
      AndIsComplete(a, e.left, [AND] + b + rest);
      assert ([AND] + b + rest)[1..] == b + rest;
      UnaryIsComplete(b, e.right, rest);
    }
  }

  lemma SplitAnd(d: Dialect, ts: seq<Token>, e: Expr) returns (a: seq<Token>, b: seq<Token>)
    requires IsAnd(d, ts, e) && !IsUnary(d, ts, e)
    ensures e.And? && ts == a + [AND] + b && IsAnd(d, a, e.left) && IsUnary(d, b, e.right)
  {
    var k :| 0 <= k < |ts| && ts[k] == AND && IsAnd(d, ts[..k], e.left) && IsUnary(d, ts[k + 1..], e.right);
    a, b := ts[..k], ts[k + 1..];
  }

  lemma {:induction false} UnaryIsComplete(ts: seq<Token>, e: Expr, rest: seq<Token>)
    requires IsUnary(Accepted, ts, e) && Follows(rest)
    ensures ParseUnary(ts + rest) == Ok((e, rest))
    decreases |ts|, 2
  {
    if IsCompare(Accepted, ts, e) {
      CompareIsComplete(ts, e, rest);
      NoCompareStartsWithNot(ts, e);
    } else {
      assert (ts + rest)[1..] == ts[1..] + rest;
      UnaryIsComplete(ts[1..], e.operand, rest);
    }
  }

  lemma SplitCompare(d: Dialect, ts: seq<Token>, e: Expr) returns (a: seq<Token>, b: seq<Token>)
    requires IsCompare(d, ts, e) && !IsOperand(d, ts, e)
    ensures e.Compare? && ts == a + Symbol(e.op) + b && IsOperand(d, a, e.left) && IsOperand(d, b, e.right)
  {
    hide IsOperand;
    var k: nat :| k < |ts| && SplitsAt(ts, k, e.op) &&
                  IsOperand(d, ts[..k], e.left) && IsOperand(d, ts[k + |Symbol(e.op)|..], e.right);
    hide IsCompare, Symbol;
    a, b := ts[..k], ts[k + |Symbol(e.op)|..];
    CutInThree(ts, k, |Symbol(e.op)|);
  }

  lemma CutInThree(ts: seq<Token>, k: nat, n: nat)
    requires k + n <= |ts|
    ensures ts == ts[..k] + ts[k..k + n] + ts[k + n..]
  {
  }

  lemma NoCompareStartsWithNot(ts: seq<Token>, e: Expr)
    requires IsCompare(Accepted, ts, e)
    ensures ts != [] && ts[0] != NOT
  {
    hide IsOperand, IsCompare;
    if IsOperand(Accepted, ts, e) {
      NoOperandStartsWithNot(ts, e);
    } else {
      var a, _ := SplitCompare(Accepted, ts, e);
      NoOperandStartsWithNot(a, e.left);
    }
  }

  lemma NoOperandStartsWithNot(ts: seq<Token>, e: Expr)
    requires IsOperand(Accepted, ts, e)
    ensures ts != [] && ts[0] != NOT
  {
    hide IsOr, IsParts, IsItems;
  }

  lemma {:induction false} CompareIsComplete(ts: seq<Token>, e: Expr, rest: seq<Token>)
    requires IsCompare(Accepted, ts, e) && Follows(rest)
    ensures ParseCompare(ts + rest) == Ok((e, rest))
    decreases |ts|, 1
  {
    hide IsOperand, IsCompare, ParseOperand, ParseOperator, Symbol;
    NoOperatorFollows(rest);
    if IsOperand(Accepted, ts, e) {
      OperandIsComplete(ts, e, rest);
    } else {
      var a, b := SplitCompare(Accepted, ts, e);
      OperatorsEndOperands(e.op, b + rest);
      var tail := Symbol(e.op) + (b + rest);
      assert ts + rest == a + tail;
      OperandIsComplete(a, e.left, tail);
      OperatorIsComplete(e.op, b + rest);
      OperandIsComplete(b, e.right, rest);
    }
  }

  lemma NoOperatorFollows(rest: seq<Token>)
    requires Follows(rest)
    ensures ParseOperator(rest) == Ok((None, rest)) && EndsOperand(rest)
  {
  }

  lemma OperatorsEndOperands(op: CmpOp, ts: seq<Token>)
    ensures EndsOperand(Symbol(op) + ts)
  {
    assert (Symbol(op) + ts)[0] == Symbol(op)[0];
  }

  lemma OperatorIsComplete(op: CmpOp, ts: seq<Token>)
    ensures ParseOperator(Symbol(op) + ts) == Ok((Some(op), ts))
  {
    var all := Symbol(op) + ts;
    assert all[0] == Symbol(op)[0];
    assert all[1..] == Symbol(op)[1..] + ts;
    if op == NotIn {
      assert all[1..] == [IN] + ts;
    }
  }

  lemma {:induction false} OperandIsComplete(ts: seq<Token>, e: Expr, rest: seq<Token>)
    requires IsOperand(Accepted, ts, e) && EndsOperand(rest)
    ensures ParseOperand(ts + rest) == Ok((e, rest))
    decreases |ts|, 0
  {
    var all := ts + rest;
    if e.Literal? && IsLiteral(Accepted, ts, e.v) {
      LiteralIsComplete(ts, e.v, rest);
    } else if e.Path? && ts != [] && ts[0] == Name(e.root) && IsParts(Accepted, ts[1..], e.parts) {
      assert all[1..] == ts[1..] + rest;
      PartsAreComplete([], ts[1..], e.parts, rest);
      assert [] + e.parts == e.parts;
    } else {
      var inner := ts[1..|ts| - 1];
      assert all[1..] == inner + ([CLOSE] + rest);
      OrIsComplete(inner, e, [CLOSE] + rest);
      assert ([CLOSE] + rest)[1..] == rest;
    }
  }

  lemma LiteralIsComplete(ts: seq<Token>, v: Value, rest: seq<Token>)
    requires IsLiteral(Accepted, ts, v)
    ensures ParseOperand(ts + rest) == Ok((Literal(v), rest))
  {
    var all := ts + rest;
    if |ts| == 1 && ScalarOf(ts[0]) == Some(v) {
      assert all[1..] == rest;
    } else if |ts| == 2 {
      assert all[2..] == rest;
    } else {
      var inner := ts[1..|ts| - 1];
      assert all[1..] == inner + ([END_LIST] + rest);
      ItemsAreComplete([], inner, v.items, rest);
      assert [] + v.items == v.items;
      assert all[1] == inner[2 * 0];
    }
  }

  lemma {:induction false} ItemsAreComplete(before: seq<Value>, ts: seq<Token>, items: seq<Value>, rest: seq<Token>)
    requires IsItems(ts, items)
    ensures ParseItems(before, ts + ([END_LIST] + rest)) == Ok((before + items, rest))
    decreases |ts|
  {
    var all := ts + ([END_LIST] + rest);
    var more := before + [items[0]];
    assert ScalarOf(ts[2 * 0]) == Some(items[0]);
    if |items| == 1 {
      assert all[2..] == rest;
      assert before + items == more;
    } else {
      assert ts[2 * 1 - 1] == COMMA;
      assert all[1..][1..] == ts[2..] + ([END_LIST] + rest);
      forall j | 0 <= j < |items| - 1
        ensures ScalarOf(ts[2..][2 * j]) == Some(items[1..][j])
        ensures j > 0 ==> ts[2..][2 * j - 1] == COMMA
      {
        assert ScalarOf(ts[2 * (j + 1)]) == Some(items[j + 1]);
        assert ts[2 * (j + 1) - 1] == COMMA;
      }
      ItemsAreComplete(more, ts[2..], items[1..], rest);
      assert more + items[1..] == before + items;
    }
  }

  lemma {:induction false} PartsAreComplete(before: seq<Key>, ts: seq<Token>, parts: seq<Key>, rest: seq<Token>)
    requires IsParts(Accepted, ts, parts) && EndsOperand(rest)
    ensures ParseParts(before, ts + rest) == Ok((before + parts, rest))
    decreases |ts|
  {
    var all := ts + rest;
    if parts == [] {
      assert all == rest && before + parts == before;
    } else {
      assert before + [parts[0]] + parts[1..] == before + parts;
      if ts[0] == DOT {
        assert all[2..] == ts[2..] + rest;
        PartsAreComplete(before + [parts[0]], ts[2..], parts[1..], rest);
      } else {
        assert all[2..][1..] == ts[3..] + rest;
        PartsAreComplete(before + [parts[0]], ts[3..], parts[1..], rest);
      }
    }
  }

  // ── The language of the parser ────────────────────────────────────────

  /** The parser accepts exactly the token sequences of the grammar, and returns the tree the grammar gives. */
  lemma ParserIsTheGrammar(ts: seq<Token>, e: Expr)
    ensures ParseTokens(ts) == Ok(e) <==> IsOr(Accepted, ts, e)
  {
    if IsOr(Accepted, ts, e) {
      OrIsComplete(ts, e, []);
      assert ts + [] == ts;
    }
    if ParseTokens(ts) == Ok(e) {
      var used := OrIsSound(ts);
      assert used == ts;
    }
  }

  /** The grammar is unambiguous. */
  lemma OneTreePerSequence(ts: seq<Token>, e: Expr, f: Expr)
    requires IsOr(Accepted, ts, e) && IsOr(Accepted, ts, f)
    ensures e == f
  {
    ParserIsTheGrammar(ts, e);
    ParserIsTheGrammar(ts, f);
  }

  // ── Printing and reading back ─────────────────────────────────────────

  /** A value that a literal can write: a scalar or a list of scalars. */
  predicate Scalar(v: Value) {
    !v.Arr? && !v.Obj?
  }

  predicate Writable(v: Value) {
    Scalar(v) || (v.Arr? && forall x | x in v.items :: Scalar(x))
  }

  /** A tree all of whose literals can be written. */
  predicate Printable(e: Expr) {
    match e
    case Or(l, r) => Printable(l) && Printable(r)
    case And(l, r) => Printable(l) && Printable(r)
    case Not(x) => Printable(x)
    case Compare(_, l, r) => Printable(l) && Printable(r)
    case Literal(v) => Writable(v)
    case Path(_, _) => true
  }

  function ScalarToken(v: Value): Token {
    match v
    case Null => Kw("null")
    case Bool(b) => if b then Kw("true") else Kw("false")
    case _ => Lit(v)
  }

  function PrintItems(items: seq<Value>): seq<Token> {
    if items == [] then []
    else if |items| == 1 then [ScalarToken(items[0])]
    else [ScalarToken(items[0]), COMMA] + PrintItems(items[1..])
  }

  function PrintLiteral(v: Value): seq<Token> {
    if v.Arr? then [LIST] + PrintItems(v.items) + [END_LIST] else [ScalarToken(v)]
  }

  function PrintParts(parts: seq<Key>): seq<Token> {
    if parts == [] then []
    else
      (match parts[0]
       case Field(name) => [LIST, Lit(Str(name)), END_LIST]
       case Index(i) => [LIST, Lit(Int(i)), END_LIST])
      + PrintParts(parts[1..])
  }

  /** Canonical form: every compound expression in parentheses. */
  function Print(e: Expr): seq<Token> {
    match e
    case Or(l, r) => [OPEN] + (Print(l) + [OR] + Print(r)) + [CLOSE]
    case And(l, r) => [OPEN] + (Print(l) + [AND] + Print(r)) + [CLOSE]
    case Not(x) => [OPEN] + ([NOT] + Print(x)) + [CLOSE]
    case Compare(op, l, r) => [OPEN] + (Print(l) + Symbol(op) + Print(r)) + [CLOSE]
    case Literal(v) => PrintLiteral(v)
    case Path(root, parts) => [Name(root)] + PrintParts(parts)
  }

  lemma OneItem(t: Token, v: Value)
    requires ScalarOf(t) == Some(v)
    ensures IsItems([t], [v])
  {
  }

  lemma ItemsBegin(t: Token, v: Value, rest: seq<Token>, items: seq<Value>)
    requires ScalarOf(t) == Some(v) && IsItems(rest, items)
    ensures IsItems([t, COMMA] + rest, [v] + items)
  {
    hide ScalarOf;
    var ts, all := [t, COMMA] + rest, [v] + items;
    forall j | 0 <= j < |all|
      ensures ScalarOf(ts[2 * j]) == Some(all[j])
    {
      if j > 0 {
        assert ts[2 * j] == rest[2 * (j - 1)] && all[j] == items[j - 1];
      }
    }
    forall j | 0 < j < |all|
      ensures ts[2 * j - 1] == COMMA
    {
      if j > 1 {
        assert ts[2 * j - 1] == rest[2 * (j - 1) - 1];
      }
    }
  }

  lemma {:induction false} PrintedItems(items: seq<Value>)
    requires items != [] && forall x | x in items :: Scalar(x)
    ensures IsItems(PrintItems(items), items)
    decreases |items|
  {
    assert ScalarOf(ScalarToken(items[0])) == Some(items[0]);
    if |items| > 1 {
      PrintedItems(items[1..]);
      ItemsBegin(ScalarToken(items[0]), items[0], PrintItems(items[1..]), items[1..]);
      assert items == [items[0]] + items[1..];
    }
  }

  lemma PrintedLiteral(v: Value)
    requires Writable(v)
    ensures IsLiteral(Accepted, PrintLiteral(v), v)
  {
    var ts := PrintLiteral(v);
    if v.Arr? && v.items != [] {
      PrintedItems(v.items);
      assert ts[1..|ts| - 1] == PrintItems(v.items);
    }
  }

  lemma {:induction false} PrintedParts(parts: seq<Key>)
    ensures IsParts(Accepted, PrintParts(parts), parts)
    decreases |parts|
  {
    if parts != [] {
      PrintedParts(parts[1..]);
      assert PrintParts(parts)[3..] == PrintParts(parts[1..]);
    }
  }

  lemma {:induction false} PrintedIsOperand(e: Expr)
    requires Printable(e)
    ensures IsOperand(Accepted, Print(e), e)
  {
    match e
    case Or(l, r) =>
      PrintedIsOperand(l);
      PrintedIsOperand(r);
      OperandsAreExpressions(Print(l), l);
      OperandsAreExpressions(Print(r), r);
      JoinOr(Print(l), l, Print(r), r);
      InParentheses(Print(l) + [OR] + Print(r), e);
    case And(l, r) =>
      PrintedIsOperand(l);
      PrintedIsOperand(r);
      OperandsAreExpressions(Print(l), l);
      OperandsAreExpressions(Print(r), r);
      JoinAnd(Print(l), l, Print(r), r);
      AndsAreExpressions(Print(l) + [AND] + Print(r), e);
      InParentheses(Print(l) + [AND] + Print(r), e);
    case Not(x) =>
      PrintedIsOperand(x);
      OperandsAreExpressions(Print(x), x);
      Negate(Print(x), x);
      AndsAreExpressions([NOT] + Print(x), e);
      InParentheses([NOT] + Print(x), e);
    case Compare(op, l, r) =>
      PrintedIsOperand(l);
      PrintedIsOperand(r);
      JoinCompare(Print(l), l, op, Print(r), r);
      ComparesAreExpressions(Print(l) + Symbol(op) + Print(r), e);
      InParentheses(Print(l) + Symbol(op) + Print(r), e);
    case Literal(v) => PrintedLiteral(v);
    case Path(root, parts) =>
      PrintedParts(parts);
      assert Print(e)[1..] == PrintParts(parts);
  }

  /** Printing a tree and parsing the result gives the tree back. */
  lemma PrintedTreesReadBack(e: Expr)
    requires Printable(e)
    ensures ParseTokens(Print(e)) == Ok(e)
  {
    PrintedIsOperand(e);
    OperandsAreExpressions(Print(e), e);
    ParserIsTheGrammar(Print(e), e);
  }

  /** Tokens as the tokenizer makes them: a literal is a number or a string. */
  predicate ScalarTokens(ts: seq<Token>) {
    forall t | t in ts :: t.Lit? ==> Scalar(t.v)
  }

  lemma LiteralsArePrintable(ts: seq<Token>, v: Value)
    requires IsLiteral(Accepted, ts, v) && ScalarTokens(ts)
    ensures Writable(v)
  {
    if !(|ts| == 1 && ScalarOf(ts[0]) == Some(v)) && |ts| > 2 {
      var inner := ts[1..|ts| - 1];
      forall x | x in v.items
        ensures Scalar(x)
      {
        var j :| 0 <= j < |v.items| && v.items[j] == x;
        assert ScalarOf(inner[2 * j]) == Some(x) && inner[2 * j] == ts[2 * j + 1];
      }
    }
  }

  lemma {:induction false} OrIsPrintable(ts: seq<Token>, e: Expr)
    requires IsOr(Accepted, ts, e) && ScalarTokens(ts)
    ensures Printable(e)
    decreases |ts|, 4
  {
    if IsAnd(Accepted, ts, e) {
      AndIsPrintable(ts, e);
    } else {
      var a, b := SplitOr(Accepted, ts, e);
      OrIsPrintable(a, e.left);
      AndIsPrintable(b, e.right);
    }
  }

  lemma {:induction false} AndIsPrintable(ts: seq<Token>, e: Expr)
    requires IsAnd(Accepted, ts, e) && ScalarTokens(ts)
    ensures Printable(e)
    decreases |ts|, 3
  {
    if IsUnary(Accepted, ts, e) {
      UnaryIsPrintable(ts, e);
    } else {
      var a, b := SplitAnd(Accepted, ts, e);
      AndIsPrintable(a, e.left);
      UnaryIsPrintable(b, e.right);
    }
  }

  lemma {:induction false} UnaryIsPrintable(ts: seq<Token>, e: Expr)
    requires IsUnary(Accepted, ts, e) && ScalarTokens(ts)
    ensures Printable(e)
    decreases |ts|, 2
  {
    hide IsOperand;
    if !IsCompare(Accepted, ts, e) {
      UnaryIsPrintable(ts[1..], e.operand);
    } else if IsOperand(Accepted, ts, e) {
      OperandIsPrintable(ts, e);
    } else {
      var a, b := SplitCompare(Accepted, ts, e);
      OperandIsPrintable(a, e.left);
      OperandIsPrintable(b, e.right);
    }
  }

  lemma {:induction false} OperandIsPrintable(ts: seq<Token>, e: Expr)
    requires IsOperand(Accepted, ts, e) && ScalarTokens(ts)
    ensures Printable(e)
    decreases |ts|, 0
  {
    hide IsOr, IsLiteral;
    if e.Literal? && IsLiteral(Accepted, ts, e.v) {
      LiteralsArePrintable(ts, e.v);
    } else if !e.Path? || ts[0] == OPEN {
      OrIsPrintable(ts[1..|ts| - 1], e);
    }
  }

  /** The trees of the language are exactly those whose lists hold scalars: a list in a list is refused. */
  lemma TreesAreThePrintable(e: Expr)
    ensures Printable(e) <==> exists ts :: ScalarTokens(ts) && ParseTokens(ts) == Ok(e)
  {
    if Printable(e) {
      PrintedTreesReadBack(e);
      PrintsScalars(e);
      assert ScalarTokens(Print(e)) && ParseTokens(Print(e)) == Ok(e);
    }
    if ts :| ScalarTokens(ts) && ParseTokens(ts) == Ok(e) {
      ParserIsTheGrammar(ts, e);
      OrIsPrintable(ts, e);
    }
  }

  lemma {:induction false} PrintsScalars(e: Expr)
    requires Printable(e)
    ensures ScalarTokens(Print(e))
  {
    match e
    case Or(l, r) => PrintsScalars(l); PrintsScalars(r);
    case And(l, r) => PrintsScalars(l); PrintsScalars(r);
    case Not(x) => PrintsScalars(x);
    case Compare(_, l, r) => PrintsScalars(l); PrintsScalars(r);
    case Literal(v) =>
      if v.Arr? {
        ItemsPrintScalars(v.items);
      }
    case Path(_, parts) => PartsPrintScalars(parts);
  }

  lemma {:induction false} ItemsPrintScalars(items: seq<Value>)
    requires forall x | x in items :: Scalar(x)
    ensures ScalarTokens(PrintItems(items))
  {
    if |items| > 1 {
      ItemsPrintScalars(items[1..]);
    }
  }

  lemma {:induction false} PartsPrintScalars(parts: seq<Key>)
    ensures ScalarTokens(PrintParts(parts))
  {
    if parts != [] {
      PartsPrintScalars(parts[1..]);
    }
  }

  // ── The documented grammar ────────────────────────────────────────────

  lemma ScalarsAreOneToken(ts: seq<Token>, v: Value)
    requires IsLiteral(Documented, ts, v) && Scalar(v)
    ensures |ts| == 1 && ScalarOf(ts[0]) == Some(v)
  {
  }

  lemma NestedBegins(ts: seq<Token>, items: seq<Value>)
    requires IsNested(ts, items) && |items| > 1 && Scalar(items[0])
    ensures |ts| > 2 && ScalarOf(ts[0]) == Some(items[0]) && ts[1] == COMMA && IsNested(ts[2..], items[1..])
  {
    hide IsLiteral, Scalar, ScalarOf;
    var k :| && 0 <= k < |ts| && ts[k] == COMMA
             && IsLiteral(Documented, ts[..k], items[0]) && IsNested(ts[k + 1..], items[1..]);
    ScalarsAreOneToken(ts[..k], items[0]);
    assert k == 1;
    NestedIsSome(ts[2..], items[1..]);
  }

  lemma NestedIsSome(ts: seq<Token>, items: seq<Value>)
    requires IsNested(ts, items)
    ensures ts != []
  {
  }

  /** A documented list of scalars is an accepted one. */
  lemma {:induction false} NestedScalarsAreItems(ts: seq<Token>, items: seq<Value>)
    requires IsNested(ts, items) && forall x | x in items :: Scalar(x)
    ensures IsItems(ts, items)
    decreases |items|
  {
    hide IsItems, Scalar, ScalarOf, IsLiteral;
    if |items| == 1 {
      ScalarsAreOneToken(ts, items[0]);
      OneItem(ts[0], items[0]);
      assert ts == [ts[0]] && items == [items[0]];
    } else {
      hide IsNested;
      NestedBegins(ts, items);
      NestedScalarsAreItems(ts[2..], items[1..]);
      ItemsBegin(ts[0], items[0], ts[2..], items[1..]);
      assert ts == [ts[0], COMMA] + ts[2..] && items == [items[0]] + items[1..];
    }
  }

  lemma {:induction false} DocumentedPartsAreAccepted(ts: seq<Token>, parts: seq<Key>)
    requires IsParts(Documented, ts, parts)
    ensures IsParts(Accepted, ts, parts)
    decreases |ts|
  {
    if parts != [] {
      DocumentedPartsAreAccepted(if ts[0] == DOT then ts[2..] else ts[3..], parts[1..]);
    }
  }

  lemma DocumentedLiteralIsAccepted(ts: seq<Token>, v: Value)
    requires IsLiteral(Documented, ts, v) && Writable(v)
    ensures IsLiteral(Accepted, ts, v)
  {
    if |ts| > 2 {
      NestedScalarsAreItems(ts[1..|ts| - 1], v.items);
    }
  }

  lemma {:induction false} DocumentedOrIsAccepted(ts: seq<Token>, e: Expr)
    requires IsOr(Documented, ts, e) && Printable(e)
    ensures IsOr(Accepted, ts, e)
    decreases |ts|, 4
  {
    if IsAnd(Documented, ts, e) {
      DocumentedAndIsAccepted(ts, e);
    } else {
      var a, b := SplitOr(Documented, ts, e);
      DocumentedOrIsAccepted(a, e.left);
      DocumentedAndIsAccepted(b, e.right);
      JoinOr(a, e.left, b, e.right);
    }
  }

  lemma {:induction false} DocumentedAndIsAccepted(ts: seq<Token>, e: Expr)
    requires IsAnd(Documented, ts, e) && Printable(e)
    ensures IsAnd(Accepted, ts, e)
    decreases |ts|, 3
  {
    if IsUnary(Documented, ts, e) {
      DocumentedUnaryIsAccepted(ts, e);
    } else {
      var a, b := SplitAnd(Documented, ts, e);
      DocumentedAndIsAccepted(a, e.left);
      DocumentedUnaryIsAccepted(b, e.right);
      JoinAnd(a, e.left, b, e.right);
    }
  }

  lemma {:induction false} DocumentedUnaryIsAccepted(ts: seq<Token>, e: Expr)
    requires IsUnary(Documented, ts, e) && Printable(e)
    ensures IsUnary(Accepted, ts, e)
    decreases |ts|, 2
  {
    hide IsOperand;
    if !IsCompare(Documented, ts, e) {
      DocumentedUnaryIsAccepted(ts[1..], e.operand);
      Negate(ts[1..], e.operand);
      assert [NOT] + ts[1..] == ts;
    } else if IsOperand(Documented, ts, e) {
      DocumentedOperandIsAccepted(ts, e);
    } else {
      var a, b := SplitCompare(Documented, ts, e);
      DocumentedOperandIsAccepted(a, e.left);
      DocumentedOperandIsAccepted(b, e.right);
      JoinCompare(a, e.left, e.op, b, e.right);
    }
  }

  lemma {:induction false} DocumentedOperandIsAccepted(ts: seq<Token>, e: Expr)
    requires IsOperand(Documented, ts, e) && Printable(e)
    ensures IsOperand(Accepted, ts, e)
    decreases |ts|, 0
  {
    hide IsOr, IsLiteral, IsParts;
    if e.Literal? && IsLiteral(Documented, ts, e.v) {
      DocumentedLiteralIsAccepted(ts, e.v);
    } else if e.Path? && ts[0] == Name(e.root) {
      DocumentedPartsAreAccepted(ts[1..], e.parts);
    } else {
      DocumentedOrIsAccepted(ts[1..|ts| - 1], e);
    }
  }

  /** What is documented is accepted, with the same tree, exactly when no list in it holds a list. */
  lemma DocumentedIsAcceptedExactlyWhen(ts: seq<Token>, e: Expr)
    requires IsOr(Documented, ts, e) && ScalarTokens(ts)
    ensures ParseTokens(ts) == Ok(e) <==> Printable(e)
  {
    ParserIsTheGrammar(ts, e);
    if Printable(e) {
      DocumentedOrIsAccepted(ts, e);
    }
    if IsOr(Accepted, ts, e) {
      OrIsPrintable(ts, e);
    }
  }

  /** `[[1]]` is documented, and refused. */
  lemma ANestedListIsRefused()
    ensures var ts := [LIST, LIST, Lit(Int(1)), END_LIST, END_LIST];
            && IsOr(Documented, ts, Literal(Arr([Arr([Int(1)])])))
            && ParseTokens(ts).Err?
  {
    var inner := [LIST, Lit(Int(1)), END_LIST];
    var ts := [LIST, LIST, Lit(Int(1)), END_LIST, END_LIST];
    assert inner[1..2] == [Lit(Int(1))];
    assert IsLiteral(Documented, [Lit(Int(1))], Int(1));
    assert IsNested([Lit(Int(1))], [Int(1)]);
    assert IsLiteral(Documented, inner, Arr([Int(1)]));
    assert ts[1..4] == inner;
    assert IsNested(inner, [Arr([Int(1)])]);
    assert IsLiteral(Documented, ts, Arr([Arr([Int(1)])]));
    DocumentedOperands(ts, Literal(Arr([Arr([Int(1)])])));
    assert ParseItems([], ts[1..]).Err?;
    assert ParseOperand(ts).Err?;
    assert ParseCompare(ts).Err?;
    assert ParseUnary(ts).Err?;
    assert ParseAnd(ts).Err?;
  }

  lemma DocumentedOperands(ts: seq<Token>, e: Expr)
    requires IsOperand(Documented, ts, e)
    ensures IsOr(Documented, ts, e)
  {
    assert IsCompare(Documented, ts, e);
    assert IsUnary(Documented, ts, e);
    assert IsAnd(Documented, ts, e);
  }

  /** `a.in` is accepted, and not documented: after a dot any word is a name. */
  lemma AKeywordAfterADotIsAccepted()
    ensures var ts, e := [Name("a"), DOT, Kw("in")], Path("a", [Field("in")]);
            ParseTokens(ts) == Ok(e) && !IsOr(Documented, ts, e)
  {
    var ts, e := [Name("a"), DOT, Kw("in")], Path("a", [Field("in")]);
    var tail := [DOT, Kw("in")];
    assert ts[1..] == tail && tail[2..] == [] && e.parts[1..] == [];
    assert NameKey(tail[1]) == Some(Field("in"));
    assert IsParts(Accepted, [], []);
    assert IsParts(Accepted, tail, e.parts);
    OperandsAreExpressions(ts, e);
    ParserIsTheGrammar(ts, e);
    assert !IsParts(Documented, tail, e.parts);
    assert !IsOperand(Documented, ts, e);
    assert !IsCompare(Documented, ts, e);
    assert !IsUnary(Documented, ts, e);
    assert !IsAnd(Documented, ts, e);
  }
}
