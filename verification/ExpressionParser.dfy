/** The parser as the code runs it: one object with a cursor that its methods move. */
module ExpressionParser {
  import opened Wrappers
  import opened Json
  import opened Expressions

  class Parser {
    const tokens: seq<Token>
    var i: nat

    constructor (tokens: seq<Token>)
      ensures this.tokens == tokens && i == 0
    {
      this.tokens := tokens;
      i := 0;
    }

    /** The tokens that are left. */
    function Rest(): seq<Token>
      reads this
    {
      if i <= |tokens| then tokens[i..] else []
    }

    function Peek(): (t: Option<Token>)
      reads this
      ensures t == if Rest() == [] then None else Some(Rest()[0])
    {
      if i < |tokens| then Some(tokens[i]) else None
    }

    /** The next token; the cursor moves even at the end. */
    method Next() returns (t: Option<Token>)
      modifies this
      ensures t == old(Peek()) && i == old(i) + 1
      ensures t.Some? ==> Rest() == old(Rest())[1..]
    {
      t := Peek();
      i := i + 1;
    }

    method Accept(t: Token) returns (found: bool)
      modifies this
      ensures found == Starts(old(Rest()), t)
      ensures if found then i == old(i) + 1 && i <= |tokens| && Rest() == old(Rest())[1..] else i == old(i)
    {
      found := Peek() == Some(t);
      if found {
        i := i + 1;
      }
    }

    method ExpectToken(t: Token) returns (r: Result<()>)
      modifies this
      ensures r.Ok? <==> Expect(old(Rest()), t).Ok?
      ensures r.Ok? ==> old(i) < i <= |tokens| && Rest() == Expect(old(Rest()), t).value
    {
      var found := Accept(t);
      r := if found then Ok(()) else Err;
    }

    /** A whole expression: nothing may be left over. */
    method Parse() returns (r: Result<Expr>)
      requires i == 0
      modifies this
      ensures r == ParseTokens(tokens)
    {
      assert Rest() == tokens;
      var node := OrExpr();
      if node.Err? {
        return Err;
      }
      if Peek().Some? {
        return Err;
      }
      return node;
    }

    method OrExpr() returns (r: Result<Expr>)
      requires i <= |tokens|
      modifies this
      ensures r.Ok? <==> ParseOr(old(Rest())).Ok?
      ensures r.Ok? ==> old(i) < i <= |tokens| && (r.value, Rest()) == ParseOr(old(Rest())).value
      decreases |tokens| - i, 4
    {
      var node :- AndExpr();
      var found := Accept(OR);
      while found
        invariant old(i) < i <= |tokens|
        invariant if found then ParseOr(old(Rest())) ==
                                  (var (right, rest) :- ParseAnd(Rest()); OrLoop(Expr.Or(node, right), rest))
                  else ParseOr(old(Rest())) == Ok((node, Rest()))
        decreases found, |tokens| - i
      {
        var right :- AndExpr();
        node := Expr.Or(node, right);
        found := Accept(OR);
      }
      return Ok(node);
    }

    method AndExpr() returns (r: Result<Expr>)
      requires i <= |tokens|
      modifies this
      ensures r.Ok? <==> ParseAnd(old(Rest())).Ok?
      ensures r.Ok? ==> old(i) < i <= |tokens| && (r.value, Rest()) == ParseAnd(old(Rest())).value
      decreases |tokens| - i, 3
    {
      var node :- UnaryExpr();
      var found := Accept(AND);
      while found
        invariant old(i) < i <= |tokens|
        invariant if found then ParseAnd(old(Rest())) ==
                                  (var (right, rest) :- ParseUnary(Rest()); AndLoop(Expr.And(node, right), rest))
                  else ParseAnd(old(Rest())) == Ok((node, Rest()))
        decreases found, |tokens| - i
      {
        var right :- UnaryExpr();
        node := Expr.And(node, right);
        found := Accept(AND);
      }
      return Ok(node);
    }

    method UnaryExpr() returns (r: Result<Expr>)
      requires i <= |tokens|
      modifies this
      ensures r.Ok? <==> ParseUnary(old(Rest())).Ok?
      ensures r.Ok? ==> old(i) < i <= |tokens| && (r.value, Rest()) == ParseUnary(old(Rest())).value
      decreases |tokens| - i, 2
    {
      var negated := Accept(NOT);
      if negated {
        var operand :- UnaryExpr();
        return Ok(Expr.Not(operand));
      }
      r := CompareExpr();
    }

    /** The comparison operator that follows an operand, if one does. */
    method Operator() returns (r: Result<Option<CmpOp>>)
      requires i <= |tokens|
      modifies this
      ensures r.Ok? <==> ParseOperator(old(Rest())).Ok?
      ensures r.Ok? ==> old(i) <= i <= |tokens| && (r.value, Rest()) == ParseOperator(old(Rest())).value
    {
      var t := Peek();
      if t.Some? && t.value.Op? {
        var _ := Next();
        return Ok(Some(Rel(t.value.relation)));
      } else if t == Some(IN) {
        var _ := Next();
        return Ok(Some(In));
      } else if t == Some(NOT) {
        var _ := Next();
        var _ :- ExpectToken(IN);
        return Ok(Some(NotIn));
      }
      return Ok(None);
    }

    method CompareExpr() returns (r: Result<Expr>)
      requires i <= |tokens|
      modifies this
      ensures r.Ok? <==> ParseCompare(old(Rest())).Ok?
      ensures r.Ok? ==> old(i) < i <= |tokens| && (r.value, Rest()) == ParseCompare(old(Rest())).value
      decreases |tokens| - i, 1
    {
      hide ParseOperand, ParseOperator;
      var left :- OperandExpr();
      var op :- Operator();
      if op.None? {
        return Ok(left);
      }
      var right :- OperandExpr();
      return Ok(Expr.Compare(op.value, left, right));
    }

    method OperandExpr() returns (r: Result<Expr>)
      requires i <= |tokens|
      modifies this
      ensures r.Ok? <==> ParseOperand(old(Rest())).Ok?
      ensures r.Ok? ==> old(i) < i <= |tokens| && (r.value, Rest()) == ParseOperand(old(Rest())).value
      decreases |tokens| - i, 0
    {
      var t := Next();
      if t.None? {
        return Err;
      }
      if t.value.Lit? {
        return Ok(Expr.Literal(t.value.v));
      }
      if KeywordValue(t.value).Some? {
        return Ok(Expr.Literal(KeywordValue(t.value).value));
      }
      if t.value == OPEN {
        var node :- OrExpr();
        var _ :- ExpectToken(CLOSE);
        return Ok(node);
      }
      if t.value == LIST {
        var empty := Accept(END_LIST);
        if empty {
          return Ok(Expr.Literal(Arr([])));
        }
        var items :- ListItems();
        return Ok(Expr.Literal(Arr(items)));
      }
      if t.value.Name? {
        var parts :- PathParts();
        return Ok(Expr.Path(t.value.name, parts));
      }
      return Err;
    }

    method ListItems() returns (r: Result<seq<Value>>)
      requires i <= |tokens|
      modifies this
      ensures r.Ok? <==> ParseItems([], old(Rest())).Ok?
      ensures r.Ok? ==> old(i) < i <= |tokens| && (r.value, Rest()) == ParseItems([], old(Rest())).value
    {
      var items: seq<Value> := [];
      var done := false;
      while !done
        invariant old(i) <= i <= |tokens| && (done ==> old(i) < i)
        invariant ParseItems([], old(Rest())) ==
                    if done then Ok((items, Rest())) else ParseItems(items, Rest())
        decreases !done, |tokens| - i
      {
        var t := Next();
        if t.None? || ScalarOf(t.value).None? {
          return Err;
        }
        items := items + [ScalarOf(t.value).value];
        done := Accept(END_LIST);
        if !done {
          var _ :- ExpectToken(COMMA);
        }
      }
      return Ok(items);
    }

    method PathParts() returns (r: Result<seq<Key>>)
      requires i <= |tokens|
      modifies this
      ensures r.Ok? <==> ParseParts([], old(Rest())).Ok?
      ensures r.Ok? ==> i <= |tokens| && old(i) <= i && (r.value, Rest()) == ParseParts([], old(Rest())).value
    {
      var parts: seq<Key> := [];
      while true
        invariant old(i) <= i <= |tokens|
        invariant ParseParts([], old(Rest())) == ParseParts(parts, Rest())
        decreases |tokens| - i
      {
        var dot := Accept(DOT);
        if dot {
          var t := Next();
          if t.None? || NameKey(t.value).None? {
            return Err;
          }
          parts := parts + [NameKey(t.value).value];
        } else {
          var bracket := Accept(LIST);
          if !bracket {
            return Ok(parts);
          }
          var t := Next();
          if t.None? || IndexKey(t.value).None? {
            return Err;
          }
          parts := parts + [IndexKey(t.value).value];
          var _ :- ExpectToken(END_LIST);
        }
      }
    }
  }
}
