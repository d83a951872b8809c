/** Evaluation (engine/expressions.py): partial, with no exceptions but one, and short-circuiting. */
module ExpressionEval {
  import opened Wrappers
  import opened Json
  import opened Expressions
  import opened ExpressionText

  type Context = map<string, Value>

  predicate IsNumber(v: Value) {
    v.Int? || v.Float?
  }

  function AsReal(v: Value): real
    requires IsNumber(v)
  {
    if v.Int? then v.n as real else v.r
  }

  predicate SameType(a: Value, b: Value) {
    match a
    case Null => b.Null?
    case Bool(_) => b.Bool?
    case Int(_) => b.Int?
    case Float(_) => b.Float?
    case Str(_) => b.Str?
    case Arr(_) => b.Arr?
    case Obj(_) => b.Obj?
  }

  predicate Comparable(a: Value, b: Value) {
    a.Null? || b.Null? || (IsNumber(a) && IsNumber(b)) || SameType(a, b)
  }

  /** Code point order. */
  predicate Before(s: string, t: string) {
    if t == [] then false
    else if s == [] then true
    else s[0] < t[0] || (s[0] == t[0] && Before(s[1..], t[1..]))
  }

  predicate Contains(s: string, t: string) {
    exists i | 0 <= i <= |s| :: t <= s[i..]
  }

  function AsBool(v: Value): Result<bool> {
    if v.Bool? then Ok(v.b) else Err
  }

  function Member(left: Value, right: Value): Result<bool> {
    match right
    case Arr(items) => Ok(exists x | x in items :: PyEq(left, x))
    case Str(s) => if left.Str? then Ok(Contains(s, left.s)) else Err
    case _ => Err
  }

  function Less(left: Value, right: Value): Result<bool> {
    if IsNumber(left) && IsNumber(right) then Ok(AsReal(left) < AsReal(right))
    else if left.Str? && right.Str? then Ok(Before(left.s, right.s))
    else Err
  }

  function Compared(op: CmpOp, left: Value, right: Value): Result<bool> {
    match op
    case In => Member(left, right)
    case NotIn =>
      var found :- Member(left, right);
      Ok(!found)
    case Rel(Eq) => if Comparable(left, right) then Ok(PyEq(left, right)) else Err
    case Rel(Ne) => if Comparable(left, right) then Ok(!PyEq(left, right)) else Err
    case Rel(Lt) => Less(left, right)
    case Rel(Gt) => Less(right, left)
    case Rel(Le) =>
      var less :- Less(right, left);
      Ok(!less)
    case Rel(Ge) =>
      var less :- Less(left, right);
      Ok(!less)
  }

  /** One step along a path. */
  function Child(current: Value, part: Key): Result<Value> {
    match (current, part)
    case (Obj(fields), Field(name)) => if name in fields then Ok(fields[name]) else Err
    case (Arr(items), Index(i)) =>
      if !(-|items| <= i < |items|) then Err
      else if i < 0 then Ok(items[|items| + i])
      else Ok(items[i])
    case _ => Err
  }

  function Walk(current: Value, parts: seq<Key>): Result<Value>
    decreases |parts|
  {
    if parts == [] then Ok(current)
    else
      var next :- Child(current, parts[0]);
      Walk(next, parts[1..])
  }

  function Eval(e: Expr, ctx: Context): Result<Value> {
    match e
    case Literal(v) => Ok(v)
    case Path(root, parts) => Walk(Obj(ctx), [Field(root)] + parts)
    case Not(x) =>
      var v :- Eval(x, ctx);
      var b :- AsBool(v);
      Ok(Bool(!b))
    case And(l, r) =>
      var v :- Eval(l, ctx);
      var b :- AsBool(v);
      if !b then Ok(Bool(false))
      else
        var w :- Eval(r, ctx);
        var c :- AsBool(w);
        Ok(Bool(c))
    case Or(l, r) =>
      var v :- Eval(l, ctx);
      var b :- AsBool(v);
      if b then Ok(Bool(true))
      else
        var w :- Eval(r, ctx);
        var c :- AsBool(w);
        Ok(Bool(c))
    case Compare(op, l, r) =>
      var v :- Eval(l, ctx);
      var w :- Eval(r, ctx);
      var b :- Compared(op, v, w);
      Ok(Bool(b))
  }

  /** Evaluate a text to a boolean. Anything else is an error. */
  function Evaluate(text: string, ctx: Context): Result<bool> {
    var e :- ParseText(text);
    var v :- Eval(e, ctx);
    AsBool(v)
  }

  // ── The footprint ─────────────────────────────────────────────────────

  /** The first segment of every path. */
  function RootNames(e: Expr): set<string> {
    match e
    case Or(l, r) => RootNames(l) + RootNames(r)
    case And(l, r) => RootNames(l) + RootNames(r)
    case Not(x) => RootNames(x)
    case Compare(_, l, r) => RootNames(l) + RootNames(r)
    case Literal(_) => {}
    case Path(root, _) => {root}
  }

  predicate AgreeOn(names: set<string>, c: Context, d: Context) {
    forall x | x in names :: (x in c <==> x in d) && (x in c ==> c[x] == d[x])
  }

  /** An expression sees nothing of its context but its root names: the value, or the error, is the same. */
  lemma {:induction false} RootNamesAreTheFootprint(e: Expr, c: Context, d: Context)
    requires AgreeOn(RootNames(e), c, d)
    ensures Eval(e, c) == Eval(e, d)
  {
    match e
    case Literal(_) =>
    case Path(root, parts) =>
      assert root in RootNames(e);
      var all := [Field(root)] + parts;
      assert all[1..] == parts;
      assert Walk(Obj(c), all) == (var next :- Child(Obj(c), Field(root)); Walk(next, parts));
      assert Walk(Obj(d), all) == (var next :- Child(Obj(d), Field(root)); Walk(next, parts));
    case Not(x) => RootNamesAreTheFootprint(x, c, d);
    case And(l, r) =>
      RootNamesAreTheFootprint(l, c, d);
      RootNamesAreTheFootprint(r, c, d);
    case Or(l, r) =>
      RootNamesAreTheFootprint(l, c, d);
      RootNamesAreTheFootprint(r, c, d);
    case Compare(_, l, r) =>
      RootNamesAreTheFootprint(l, c, d);
      RootNamesAreTheFootprint(r, c, d);
  }

  // ── Short circuits ────────────────────────────────────────────────────

  /** The same language with both operands of `and` and `or` always evaluated. */
  function StrictEval(e: Expr, ctx: Context): Result<Value> {
    match e
    case Literal(v) => Ok(v)
    case Path(root, parts) => Walk(Obj(ctx), [Field(root)] + parts)
    case Not(x) =>
      var v :- StrictEval(x, ctx);
      var b :- AsBool(v);
      Ok(Bool(!b))
    case And(l, r) =>
      var v :- StrictEval(l, ctx);
      var b :- AsBool(v);
      var w :- StrictEval(r, ctx);
      var c :- AsBool(w);
      Ok(Bool(b && c))
    case Or(l, r) =>
      var v :- StrictEval(l, ctx);
      var b :- AsBool(v);
      var w :- StrictEval(r, ctx);
      var c :- AsBool(w);
      Ok(Bool(b || c))
    case Compare(op, l, r) =>
      var v :- StrictEval(l, ctx);
      var w :- StrictEval(r, ctx);
      var b :- Compared(op, v, w);
      Ok(Bool(b))
  }

  /** Short-circuit evaluation gives the strict value whenever there is one. */
  lemma {:induction false} ShortCircuitsAgree(e: Expr, ctx: Context)
    requires StrictEval(e, ctx).Ok?
    ensures Eval(e, ctx) == StrictEval(e, ctx)
  {
    match e
    case Literal(_) =>
    case Path(_, _) =>
    case Not(x) => ShortCircuitsAgree(x, ctx);
    case And(l, r) =>
      ShortCircuitsAgree(l, ctx);
      ShortCircuitsAgree(r, ctx);
    case Or(l, r) =>
      ShortCircuitsAgree(l, ctx);
      ShortCircuitsAgree(r, ctx);
    case Compare(_, l, r) =>
      ShortCircuitsAgree(l, ctx);
      ShortCircuitsAgree(r, ctx);
  }

  // ── Equality ──────────────────────────────────────────────────────────

  lemma {:induction false} PyEqIsReflexive(a: Value)
    ensures PyEq(a, a)
  {
    match a
    case Arr(x) =>
      forall i | 0 <= i < |x|
        ensures PyEq(x[i], x[i])
      {
        PyEqIsReflexive(x[i]);
      }
    case Obj(x) =>
      forall k | k in x.Keys
        ensures PyEq(x[k], x[k])
      {
        PyEqIsReflexive(x[k]);
      }
    case _ =>
  }

  lemma {:induction false} PyEqIsSymmetric(a: Value, b: Value)
    requires PyEq(a, b)
    ensures PyEq(b, a)
  {
    match (a, b)
    case (Arr(x), Arr(y)) =>
      forall i | 0 <= i < |x|
        ensures PyEq(y[i], x[i])
      {
        PyEqIsSymmetric(x[i], y[i]);
      }
    case (Obj(x), Obj(y)) =>
      forall k | k in x.Keys
        ensures PyEq(y[k], x[k])
      {
        PyEqIsSymmetric(x[k], y[k]);
      }
    case _ =>
  }

  lemma {:induction false} PyEqIsTransitive(a: Value, b: Value, c: Value)
    requires PyEq(a, b) && PyEq(b, c)
    ensures PyEq(a, c)
  {
    match (a, b, c)
    case (Arr(x), Arr(y), Arr(z)) =>
      forall i | 0 <= i < |x|
        ensures PyEq(x[i], z[i])
      {
        PyEqIsTransitive(x[i], y[i], z[i]);
      }
    case (Obj(x), Obj(y), Obj(z)) =>
      forall k | k in x.Keys
        ensures PyEq(x[k], z[k])
      {
        PyEqIsTransitive(x[k], y[k], z[k]);
      }
    case _ =>
  }

  /**
   `==` guards its operands and `in` does not: whenever `a == b` has a value, `a in [b]` has the
   same one, and the two differ exactly when the types may not be compared.
   */
  lemma MembershipAndEquality(a: Value, b: Value)
    ensures Compared(In, a, Arr([b])) == Ok(PyEq(a, b))
    ensures Compared(Rel(Eq), a, b) == Compared(In, a, Arr([b])) <==> Comparable(a, b)
  {
    assert b in [b];
  }

  // ── What the operators compute ────────────────────────────────────────

  /** `v` is the number `x`, written as an integer or with a fraction. A boolean is not a number here. */
  predicate Stands(v: Value, x: real) {
    (v.Int? && v.n as real == x) || v == Float(x)
  }

  /** Numbers compare by their value, whichever way they are written. */
  lemma NumbersCompare(a: Value, b: Value, x: real, y: real)
    requires Stands(a, x) && Stands(b, y)
    ensures Compared(Rel(Lt), a, b) == Ok(x < y)
    ensures Compared(Rel(Le), a, b) == Ok(x <= y)
    ensures Compared(Rel(Gt), a, b) == Ok(x > y)
    ensures Compared(Rel(Ge), a, b) == Ok(x >= y)
    ensures Compared(Rel(Eq), a, b) == Ok(x == y)
    ensures Compared(Rel(Ne), a, b) == Ok(x != y)
  {
  }

  /** Integers as integers. */
  lemma IntegersCompare(m: int, n: int)
    ensures Compared(Rel(Lt), Int(m), Int(n)) == Ok(m < n)
    ensures Compared(Rel(Le), Int(m), Int(n)) == Ok(m <= n)
    ensures Compared(Rel(Gt), Int(m), Int(n)) == Ok(m > n)
    ensures Compared(Rel(Ge), Int(m), Int(n)) == Ok(m >= n)
    ensures Compared(Rel(Eq), Int(m), Int(n)) == Ok(m == n)
    ensures Compared(Rel(Ne), Int(m), Int(n)) == Ok(m != n)
  {
    NumbersCompare(Int(m), Int(n), m as real, n as real);
  }

  /** The first place where two texts differ decides, or that one of them ends there. */
  lemma {:induction false} BeforeExactlyWhen(s: string, t: string)
    ensures Before(s, t) <==>
              exists n: nat | n <= |s| && n < |t| :: s[..n] == t[..n] && (n < |s| ==> s[n] < t[n])
    decreases |s|
  {
    if s != [] && t != [] {
      BeforeExactlyWhen(s[1..], t[1..]);
      if Before(s, t) {
        if s[0] == t[0] {
          var n: nat :| n <= |s[1..]| && n < |t[1..]| && s[1..][..n] == t[1..][..n]
                        && (n < |s[1..]| ==> s[1..][n] < t[1..][n]);
          assert s[..n + 1] == [s[0]] + s[1..][..n] && t[..n + 1] == [t[0]] + t[1..][..n];
        } else {
          assert s[..0] == t[..0];
        }
      }
      if n: nat :| n <= |s| && n < |t| && s[..n] == t[..n] && (n < |s| ==> s[n] < t[n]) {
        if n > 0 {
          assert s[..n][0] == s[0] && t[..n][0] == t[0];
          assert s[1..][..n - 1] == s[..n][1..] && t[1..][..n - 1] == t[..n][1..];
        }
      }
    } else if t != [] {
      assert s[..0] == t[..0];
    }
  }

  /** That order is total. */
  lemma {:induction false} TextsAreOrdered(s: string, t: string)
    ensures !(Before(s, t) && Before(t, s))
    ensures s == t || Before(s, t) || Before(t, s)
    ensures s == t ==> !Before(s, t)
    decreases |s|
  {
    if s != [] && t != [] {
      TextsAreOrdered(s[1..], t[1..]);
      assert s == [s[0]] + s[1..] && t == [t[0]] + t[1..];
    }
  }

  lemma {:induction false} OrderIsTransitive(s: string, t: string, u: string)
    requires Before(s, t) && Before(t, u)
    ensures Before(s, u)
    decreases |s|
  {
    if s != [] && s[0] == t[0] == u[0] {
      OrderIsTransitive(s[1..], t[1..], u[1..]);
    }
  }

  /** Texts compare in that order. */
  lemma TextsCompare(s: string, t: string)
    ensures Compared(Rel(Lt), Str(s), Str(t)) == Ok(Before(s, t))
    ensures Compared(Rel(Le), Str(s), Str(t)) == Ok(Before(s, t) || s == t)
    ensures Compared(Rel(Gt), Str(s), Str(t)) == Ok(Before(t, s))
    ensures Compared(Rel(Ge), Str(s), Str(t)) == Ok(Before(t, s) || s == t)
    ensures Compared(Rel(Eq), Str(s), Str(t)) == Ok(s == t)
    ensures Compared(Rel(Ne), Str(s), Str(t)) == Ok(s != t)
  {
    TextsAreOrdered(s, t);
  }

  /** Only two numbers or two texts have an order; anything else is an error. */
  lemma OrderedExactlyWhen(r: Relation, a: Value, b: Value)
    requires r != Eq && r != Ne
    ensures Compared(Rel(r), a, b).Ok? <==>
              || ((a.Int? || a.Float?) && (b.Int? || b.Float?))
              || (a.Str? && b.Str?)
  {
  }

  /** Values are equal or not where one is null, both are numbers, or both have one type; else it is an error. */
  lemma EqualOrNotExactlyWhen(a: Value, b: Value)
    ensures Compared(Rel(Eq), a, b).Ok? <==>
              || a.Null? || b.Null?
              || ((a.Int? || a.Float?) && (b.Int? || b.Float?))
              || (a.Bool? && b.Bool?) || (a.Str? && b.Str?) || (a.Arr? && b.Arr?) || (a.Obj? && b.Obj?)
    ensures Compared(Rel(Eq), a, b) == Ok(true) ==> PyEq(a, b)
    ensures Compared(Rel(Eq), a, b) == Ok(false) ==> !PyEq(a, b)
  {
  }

  /** Equality of values that hold no others: a boolean is the number one or zero, and nothing else is alike. */
  lemma ScalarsAreEqualExactlyWhen(a: Value, b: Value)
    ensures a.Null? ==> (PyEq(a, b) <==> b.Null?)
    ensures a.Str? ==> (PyEq(a, b) <==> b == a)
    ensures a.Bool? ==> (PyEq(a, b) <==> b == a || Stands(b, if a.b then 1.0 else 0.0))
    ensures a.Int? ==>
              (PyEq(a, b) <==> Stands(b, a.n as real) || (a.n == 1 && b == Bool(true)) || (a.n == 0 && b == Bool(false)))
    ensures a.Float? ==>
              (PyEq(a, b) <==> Stands(b, a.r) || (a.r == 1.0 && b == Bool(true)) || (a.r == 0.0 && b == Bool(false)))
  {
  }

  /** Equality of lists and objects: place by place, and key by key. */
  lemma StructuresAreEqualExactlyWhen(a: Value, b: Value)
    ensures a.Arr? ==>
              (PyEq(a, b) <==>
                 b.Arr? && |a.items| == |b.items| && forall i | 0 <= i < |a.items| :: PyEq(a.items[i], b.items[i]))
    ensures a.Obj? ==>
              (PyEq(a, b) <==>
                 && b.Obj? && (forall k :: k in a.fields <==> k in b.fields)
                 && forall k | k in a.fields :: PyEq(a.fields[k], b.fields[k]))
  {
    if a.Obj? && b.Obj? && forall k :: k in a.fields <==> k in b.fields {
      assert a.fields.Keys == b.fields.Keys;
    }
  }

  /** `in` finds an equal element of a list, or a stretch of a text; a number in a text is an error. */
  lemma MembershipExactlyWhen(a: Value, b: Value)
    ensures b.Arr? ==> Compared(In, a, b) == Ok(exists x | x in b.items :: PyEq(a, x))
    ensures a.Str? && b.Str? ==> Compared(In, a, b) == Ok(exists i, j | 0 <= i <= j <= |b.s| :: b.s[i..j] == a.s)
    ensures Compared(In, a, b).Ok? <==> b.Arr? || (a.Str? && b.Str?)
  {
    if a.Str? && b.Str? {
      if Contains(b.s, a.s) {
        var i :| 0 <= i <= |b.s| && a.s <= b.s[i..];
        assert b.s[i..i + |a.s|] == a.s;
      }
      if i, j :| 0 <= i <= j <= |b.s| && b.s[i..j] == a.s {
        assert a.s <= b.s[i..];
      }
    }
  }

  /** `!=` and `not in` are the opposites of `==` and `in`, with the same errors. */
  lemma OppositesAreOpposite(a: Value, b: Value)
    ensures Compared(Rel(Ne), a, b).Ok? <==> Compared(Rel(Eq), a, b).Ok?
    ensures Compared(Rel(Eq), a, b).Ok? ==> Compared(Rel(Ne), a, b).value != Compared(Rel(Eq), a, b).value
    ensures Compared(NotIn, a, b).Ok? <==> Compared(In, a, b).Ok?
    ensures Compared(In, a, b).Ok? ==> Compared(NotIn, a, b).value != Compared(In, a, b).value
  {
  }

  /** A comparison has the value of its operator on the values of its operands, and is an error where any of them is. */
  lemma ComparisonsEvaluate(op: CmpOp, l: Expr, r: Expr, ctx: Context)
    ensures Eval(Compare(op, l, r), ctx).Ok? <==>
              && Eval(l, ctx).Ok? && Eval(r, ctx).Ok?
              && Compared(op, Eval(l, ctx).value, Eval(r, ctx).value).Ok?
    ensures Eval(Compare(op, l, r), ctx).Ok? ==>
              Eval(Compare(op, l, r), ctx).value == Bool(Compared(op, Eval(l, ctx).value, Eval(r, ctx).value).value)
  {
  }

  /** So the comparison of two numbers is what it says. */
  lemma NumbersEvaluate(l: Expr, r: Expr, ctx: Context, x: real, y: real)
    requires Eval(l, ctx).Ok? && Stands(Eval(l, ctx).value, x)
    requires Eval(r, ctx).Ok? && Stands(Eval(r, ctx).value, y)
    ensures Eval(Compare(Rel(Lt), l, r), ctx) == Ok(Bool(x < y))
    ensures Eval(Compare(Rel(Le), l, r), ctx) == Ok(Bool(x <= y))
    ensures Eval(Compare(Rel(Gt), l, r), ctx) == Ok(Bool(x > y))
    ensures Eval(Compare(Rel(Ge), l, r), ctx) == Ok(Bool(x >= y))
    ensures Eval(Compare(Rel(Eq), l, r), ctx) == Ok(Bool(x == y))
    ensures Eval(Compare(Rel(Ne), l, r), ctx) == Ok(Bool(x != y))
  {
    NumbersCompare(Eval(l, ctx).value, Eval(r, ctx).value, x, y);
    hide Compared;
  }

  /** And that of two texts. */
  lemma TextsEvaluate(l: Expr, r: Expr, ctx: Context, s: string, t: string)
    requires Eval(l, ctx) == Ok(Str(s)) && Eval(r, ctx) == Ok(Str(t))
    ensures Eval(Compare(Rel(Lt), l, r), ctx) == Ok(Bool(Before(s, t)))
    ensures Eval(Compare(Rel(Le), l, r), ctx) == Ok(Bool(Before(s, t) || s == t))
    ensures Eval(Compare(Rel(Gt), l, r), ctx) == Ok(Bool(Before(t, s)))
    ensures Eval(Compare(Rel(Ge), l, r), ctx) == Ok(Bool(Before(t, s) || s == t))
    ensures Eval(Compare(Rel(Eq), l, r), ctx) == Ok(Bool(s == t))
    ensures Eval(Compare(Rel(Ne), l, r), ctx) == Ok(Bool(s != t))
  {
    TextsCompare(s, t);
    hide Compared;
  }

  /** `not`, `and` and `or` on booleans; on anything that is reached and is no boolean, an error. */
  lemma ConnectivesEvaluate(l: Expr, r: Expr, ctx: Context)
    ensures var v, w := Eval(l, ctx), Eval(r, ctx);
            && (Eval(Not(l), ctx) == Ok(Bool(true)) <==> v == Ok(Bool(false)))
            && (Eval(Not(l), ctx) == Ok(Bool(false)) <==> v == Ok(Bool(true)))
            && (Eval(And(l, r), ctx) == Ok(Bool(true)) <==> v == Ok(Bool(true)) && w == Ok(Bool(true)))
            && (Eval(And(l, r), ctx) == Ok(Bool(false)) <==>
                  v == Ok(Bool(false)) || (v == Ok(Bool(true)) && w == Ok(Bool(false))))
            && (Eval(Or(l, r), ctx) == Ok(Bool(false)) <==> v == Ok(Bool(false)) && w == Ok(Bool(false)))
            && (Eval(Or(l, r), ctx) == Ok(Bool(true)) <==>
                  v == Ok(Bool(true)) || (v == Ok(Bool(false)) && w == Ok(Bool(true))))
    ensures Eval(Not(l), ctx).Ok? ==> Eval(Not(l), ctx).value.Bool?
    ensures Eval(And(l, r), ctx).Ok? ==> Eval(And(l, r), ctx).value.Bool?
    ensures Eval(Or(l, r), ctx).Ok? ==> Eval(Or(l, r), ctx).value.Bool?
  {
  }

  /** A path reads a name of an object, or an item of a list; a negative number counts from the end. */
  lemma PathsRead(root: string, parts: seq<Key>, last: Key, ctx: Context)
    ensures Eval(Path(root, []), ctx) == if root in ctx then Ok(ctx[root]) else Err
    ensures var v := Eval(Path(root, parts), ctx);
            Eval(Path(root, parts + [last]), ctx) ==
              match last
              case Field(name) =>
                if v.Ok? && v.value.Obj? && name in v.value.fields then Ok(v.value.fields[name]) else Err
              case Index(i) =>
                if v.Ok? && v.value.Arr? && 0 <= i < |v.value.items| then Ok(v.value.items[i])
                else if v.Ok? && v.value.Arr? && -|v.value.items| <= i < 0 then Ok(v.value.items[|v.value.items| + i])
                else Err
  {
    assert [Field(root)] + (parts + [last]) == ([Field(root)] + parts) + [last];
    WalkOn(Obj(ctx), [Field(root)] + parts, last);
    var only := [Field(root)];
    assert only + [] == only && only[1..] == [];
    assert Walk(Obj(ctx), only) == (var v :- Child(Obj(ctx), Field(root)); Walk(v, only[1..]));
  }

  lemma {:induction false} WalkOn(current: Value, parts: seq<Key>, last: Key)
    ensures Walk(current, parts + [last]) ==
              (var v :- Walk(current, parts); Child(v, last))
    decreases |parts|
  {
    var all := parts + [last];
    if parts == [] {
      assert all[1..] == [];
    } else {
      assert all[1..] == parts[1..] + [last];
      if Child(current, parts[0]).Ok? {
        WalkOn(Child(current, parts[0]).value, parts[1..], last);
      }
    }
  }

  // ── How the action pipeline uses an assertion ─────────────────────────

  /** An assertion on a read's result. One that cannot be evaluated does not hold. */
  predicate Holds(assertion: string, result: Value, params: Context) {
    Evaluate(assertion, map["result" := result, "params" := Obj(params)]) == Ok(true)
  }

  /** An assertion holds when its text parses and is true of the result and the parameters; with any error it does not. */
  lemma HoldsExactlyWhen(assertion: string, result: Value, params: Context)
    ensures Holds(assertion, result, params) <==>
              && ParseText(assertion).Ok?
              && var ctx := map["result" := result, "params" := Obj(params)];
                 Eval(ParseText(assertion).value, ctx) == Ok(Bool(true))
  {
  }
}
