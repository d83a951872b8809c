/**
 The expression language of DECISION rules and VERIFY assertions (engine/expressions.py): tokens,
 abstract syntax and the recursive-descent parser. Parsing functions take the tokens that are left
 and return the tree and what is left after it.
 */
module Expressions {
  import opened Wrappers
  import opened Json

  datatype Relation = Eq | Ne | Lt | Le | Gt | Ge
  datatype CmpOp = Rel(relation: Relation) | In | NotIn

  datatype Token =
    | Lit(v: Value)
    | Op(relation: Relation)
    | Punct(c: char)
    | Kw(word: string)
    | Name(name: string)

  const AND := Kw("and")
  const OR := Kw("or")
  const NOT := Kw("not")
  const IN := Kw("in")
  const OPEN := Punct('(')
  const CLOSE := Punct(')')
  const LIST := Punct('[')
  const END_LIST := Punct(']')
  const COMMA := Punct(',')
  const DOT := Punct('.')

  /** A segment of a path: a name, or a list index. */
  datatype Key = Field(name: string) | Index(i: int)

  datatype Expr =
    | Or(left: Expr, right: Expr)
    | And(left: Expr, right: Expr)
    | Not(operand: Expr)
    | Compare(op: CmpOp, left: Expr, right: Expr)
    | Literal(v: Value)
    | Path(root: string, parts: seq<Key>)

  type Parsed<T> = Result<(T, seq<Token>)>

  /** `true`, `false` or `null` as a value. */
  function KeywordValue(t: Token): Option<Value> {
    if t == Kw("true") then Some(Bool(true))
    else if t == Kw("false") then Some(Bool(false))
    else if t == Kw("null") then Some(Null)
    else None
  }

  /** The value of a token that may stand inside a list literal. */
  function ScalarOf(t: Token): Option<Value> {
    if t.Lit? then Some(t.v) else KeywordValue(t)
  }

  predicate Starts(ts: seq<Token>, t: Token) {
    ts != [] && ts[0] == t
  }

  function Expect(ts: seq<Token>, t: Token): (r: Result<seq<Token>>)
    ensures r.Ok? ==> ts == [t] + r.value
  {
    if Starts(ts, t) then Ok(ts[1..]) else Err
  }

  function ParseOr(ts: seq<Token>): (r: Parsed<Expr>)
    ensures r.Ok? ==> |r.value.1| < |ts|
    decreases |ts|, 5
  {
    var (e, rest) :- ParseAnd(ts);
    OrLoop(e, rest)
  }

  function OrLoop(e: Expr, ts: seq<Token>): (r: Parsed<Expr>)
    ensures r.Ok? ==> |r.value.1| <= |ts|
    decreases |ts|, 6
  {
    if Starts(ts, OR) then
      var (right, rest) :- ParseAnd(ts[1..]);
      OrLoop(Or(e, right), rest)
    else Ok((e, ts))
  }

  function ParseAnd(ts: seq<Token>): (r: Parsed<Expr>)
    ensures r.Ok? ==> |r.value.1| < |ts|
    decreases |ts|, 3
  {
    var (e, rest) :- ParseUnary(ts);
    AndLoop(e, rest)
  }

  function AndLoop(e: Expr, ts: seq<Token>): (r: Parsed<Expr>)
    ensures r.Ok? ==> |r.value.1| <= |ts|
    decreases |ts|, 4
  {
    if Starts(ts, AND) then
      var (right, rest) :- ParseUnary(ts[1..]);
      AndLoop(And(e, right), rest)
    else Ok((e, ts))
  }

  function ParseUnary(ts: seq<Token>): (r: Parsed<Expr>)
    ensures r.Ok? ==> |r.value.1| < |ts|
    decreases |ts|, 2
  {
    if Starts(ts, NOT) then
      var (e, rest) :- ParseUnary(ts[1..]);
      Ok((Not(e), rest))
    else ParseCompare(ts)
  }

  /** The comparison operator that follows an operand, if one does; `not` must be followed by `in`. */
  function ParseOperator(ts: seq<Token>): (r: Parsed<Option<CmpOp>>)
    ensures r.Ok? ==> if r.value.0.Some? then |r.value.1| < |ts| else r.value.1 == ts
  {
    if ts != [] && ts[0].Op? then Ok((Some(Rel(ts[0].relation)), ts[1..]))
    else if Starts(ts, IN) then Ok((Some(In), ts[1..]))
    else if Starts(ts, NOT) then
      var rest :- Expect(ts[1..], IN);
      Ok((Some(NotIn), rest))
    else Ok((None, ts))
  }

  function ParseCompare(ts: seq<Token>): (r: Parsed<Expr>)
    ensures r.Ok? ==> |r.value.1| < |ts|
    decreases |ts|, 1
  {
    var (left, rest) :- ParseOperand(ts);
    var (op, rest') :- ParseOperator(rest);
    if op.None? then Ok((left, rest))
    else
      var (right, rest'') :- ParseOperand(rest');
      Ok((Compare(op.value, left, right), rest''))
  }

  function ParseOperand(ts: seq<Token>): (r: Parsed<Expr>)
    ensures r.Ok? ==> |r.value.1| < |ts|
    decreases |ts|, 0
  {
    if ts == [] then Err
    else if ts[0].Lit? then Ok((Literal(ts[0].v), ts[1..]))
    else if KeywordValue(ts[0]).Some? then Ok((Literal(KeywordValue(ts[0]).value), ts[1..]))
    else if ts[0] == OPEN then
      var (e, rest) :- ParseOr(ts[1..]);
      var rest' :- Expect(rest, CLOSE);
      Ok((e, rest'))
    else if ts[0] == LIST then
      if Starts(ts[1..], END_LIST) then Ok((Literal(Arr([])), ts[2..]))
      else
        var (items, rest) :- ParseItems([], ts[1..]);
        Ok((Literal(Arr(items)), rest))
    else if ts[0].Name? then
      var (parts, rest) :- ParseParts([], ts[1..]);
      Ok((Path(ts[0].name, parts), rest))
    else Err
  }

  /** One or more literals separated by commas, up to and including the closing bracket. */
  function ParseItems(items: seq<Value>, ts: seq<Token>): (r: Parsed<seq<Value>>)
    ensures r.Ok? ==> |r.value.1| < |ts|
    decreases |ts|
  {
    if ts == [] || ScalarOf(ts[0]).None? then Err
    else
      var more := items + [ScalarOf(ts[0]).value];
      if Starts(ts[1..], END_LIST) then Ok((more, ts[2..]))
      else
        var rest :- Expect(ts[1..], COMMA);
        ParseItems(more, rest)
  }

  /** A string or an integer in brackets. */
  function IndexKey(t: Token): Option<Key> {
    if t.Lit? && t.v.Str? then Some(Field(t.v.s))
    else if t.Lit? && t.v.Int? then Some(Index(t.v.n))
    else None
  }

  /** After a dot any word is a name, a keyword too. */
  function NameKey(t: Token): Option<Key> {
    if t.Name? then Some(Field(t.name))
    else if t.Kw? then Some(Field(t.word))
    else None
  }

  function ParseParts(parts: seq<Key>, ts: seq<Token>): (r: Parsed<seq<Key>>)
    ensures r.Ok? ==> |r.value.1| <= |ts|
    decreases |ts|
  {
    if Starts(ts, DOT) then
      if |ts| < 2 || NameKey(ts[1]).None? then Err
      else ParseParts(parts + [NameKey(ts[1]).value], ts[2..])
    else if Starts(ts, LIST) then
      if |ts| < 2 || IndexKey(ts[1]).None? then Err
      else
        var rest :- Expect(ts[2..], END_LIST);
        ParseParts(parts + [IndexKey(ts[1]).value], rest)
    else Ok((parts, ts))
  }

  /** A whole expression: nothing may be left over. */
  function ParseTokens(ts: seq<Token>): Result<Expr> {
    var (e, rest) :- ParseOr(ts);
    if rest == [] then Ok(e) else Err
  }
}
