/**
 The closed subset of JSON Schema that a model's answer is validated against, as ai/schema.py
 enforces it. Keywords have the JSON types their names call for; `fits` stands for the regex engine.
 */
module AnswerSchema {
  import opened Wrappers
  import opened Json
  import opened JsonPath

  const MAX_STRING: int := 20000
  const MAX_ITEMS: int := 100

  datatype Kind = Object | Text | Number | Integer | Boolean | Array

  const KEYWORDS: set<string> := {
    "type", "description", "properties", "required", "additionalProperties", "maxLength", "enum", "pattern", "minimum",
    "maximum", "items", "maxItems"}

  datatype Declared = Undeclared | Declared(properties: map<string, Schema>)

  /** A schema as it was given. `kind` is None when "type" is missing or unknown; `others` are keywords not listed here. */
  datatype Schema =
    | NotAMapping
    | Schema(
        kind: Option<Kind>,
        description: Option<string>,
        declared: Declared,
        required: Option<seq<string>>,
        additionalProperties: Option<bool>,
        maxLength: Option<int>,
        choices: Option<seq<string>>,
        pattern: Option<string>,
        minimum: Option<real>,
        maximum: Option<real>,
        items: Option<Schema>,
        maxItems: Option<int>,
        others: set<string>)
  {
    function Keywords(): set<string>
      requires Schema?
    {
      others + set k | k in KEYWORDS && Gives(k)
    }

    predicate Gives(keyword: string)
      requires Schema?
    {
      if keyword == "type" then kind.Some?
      else if keyword == "description" then description.Some?
      else if keyword == "properties" then declared.Declared?
      else if keyword == "required" then required.Some?
      else if keyword == "additionalProperties" then additionalProperties.Some?
      else if keyword == "maxLength" then maxLength.Some?
      else if keyword == "enum" then choices.Some?
      else if keyword == "pattern" then pattern.Some?
      else if keyword == "minimum" then minimum.Some?
      else if keyword == "maximum" then maximum.Some?
      else if keyword == "items" then items.Some?
      else maxItems.Some?
    }

    function Properties(): (p: map<string, Schema>)
      requires Schema?
      ensures forall k | k in p :: p[k] < this
    {
      if declared.Declared? then declared.properties else map[]
    }

    function Required(): seq<string>
      requires Schema?
    {
      if required.Some? then required.value else []
    }
  }

  function Known(kind: Kind): set<string> {
    match kind
    case Object => {"type", "properties", "required", "additionalProperties", "description"}
    case Text => {"type", "maxLength", "enum", "pattern", "description"}
    case Number => {"type", "minimum", "maximum", "description"}
    case Integer => {"type", "minimum", "maximum", "description"}
    case Boolean => {"type", "description"}
    case Array => {"type", "items", "maxItems", "description"}
  }

  predicate OnlyKnownKeywords(s: Schema)
    requires s.Schema? && s.kind.Some?
  {
    s.Keywords() <= Known(s.kind.value)
  }

  /** What is asked of one schema, leaving the schemas inside it aside. */
  predicate Supported(s: Schema) {
    && s.Schema? && s.kind.Some? && OnlyKnownKeywords(s)
    && match s.kind.value
       case Object => s.additionalProperties == Some(false) && forall name | name in s.Required() :: name in s.Properties()
       case Text => s.choices.Some? || s.maxLength.Some?
       case Array => s.maxItems.Some? && s.items.Some?
       case _ => true
  }

  /** Which keywords a schema carries. */
  lemma CarriedExactlyWhen(s: Schema, keyword: string)
    requires s.Schema?
    ensures keyword in s.Keywords() <==>
              || keyword in s.others
              || (keyword == "type" && s.kind.Some?) || (keyword == "description" && s.description.Some?)
              || (keyword == "properties" && s.declared.Declared?) || (keyword == "required" && s.required.Some?)
              || (keyword == "additionalProperties" && s.additionalProperties.Some?)
              || (keyword == "maxLength" && s.maxLength.Some?) || (keyword == "enum" && s.choices.Some?)
              || (keyword == "pattern" && s.pattern.Some?) || (keyword == "minimum" && s.minimum.Some?)
              || (keyword == "maximum" && s.maximum.Some?) || (keyword == "items" && s.items.Some?)
              || (keyword == "maxItems" && s.maxItems.Some?)
  {
  }

  /** A schema of each type carries only the keywords of that type, and what the type cannot do without. */
  lemma SupportedExactlyWhen(s: Schema)
    requires s.Schema? && s.kind.Some?
    ensures Supported(s) <==>
              match s.kind.value
              case Object =>
                && (forall k | k in s.Keywords() ::
                      k in {"type", "properties", "required", "additionalProperties", "description"})
                && s.additionalProperties == Some(false)
                && (s.required.Some? ==>
                      forall k | k in s.required.value :: s.declared.Declared? && k in s.declared.properties)
              case Text =>
                && (forall k | k in s.Keywords() :: k in {"type", "maxLength", "enum", "pattern", "description"})
                && (s.choices.Some? || s.maxLength.Some?)
              case Array =>
                && (forall k | k in s.Keywords() :: k in {"type", "items", "maxItems", "description"})
                && s.items.Some? && s.maxItems.Some?
              case Boolean => forall k | k in s.Keywords() :: k in {"type", "description"}
              case _ => forall k | k in s.Keywords() :: k in {"type", "minimum", "maximum", "description"}
  {
    hide Schema.Keywords;
    var carried := s.Keywords();
    match s.kind.value
    case Object =>
      assert s.required.Some? ==> s.Required() == s.required.value;
      assert forall k :: k in s.Properties() <==> s.declared.Declared? && k in s.declared.properties;
    case _ =>
  }

  /** The schema is one the validator enforces completely. */
  predicate Checked(s: Schema)
    decreases s
  {
    && Supported(s)
    && (s.kind == Some(Object) ==> forall name | name in s.Properties() :: Checked(s.Properties()[name]))
    && (s.kind == Some(Array) ==> Checked(s.items.value))
  }

  // ── Problems ──────────────────────────────────────────────────────────

  datatype What =
    | NotAnObject | NotAllowed(key: string) | IsRequired(key: string)
    | NotAString | NotAChoice | TooLong | NoMatch
    | NotANumber | NotAnInteger | BelowMinimum | AboveMaximum
    | NotABoolean | NotAnArray | TooManyItems | UnsupportedType

  /** What is wrong, and where in the answer. */
  datatype Problem = Problem(where: seq<Step>, what: What)

  type Fullmatch = (string, string) -> bool

  function Min(a: int, b: int): int { if a < b then a else b }

  function LengthLimit(s: Schema): int
    requires s.Schema?
  {
    Min(if s.maxLength.Some? then s.maxLength.value else MAX_STRING, MAX_STRING)
  }

  function TextProblems(fits: Fullmatch, s: Schema, v: Value, where: seq<Step>): set<Problem>
    requires s.Schema?
  {
    if !v.Str? then {Problem(where, NotAString)}
    else if s.choices.Some? && v.s !in s.choices.value then {Problem(where, NotAChoice)}
    else if |v.s| > LengthLimit(s) then {Problem(where, TooLong)}
    else if s.pattern.Some? && !fits(s.pattern.value, v.s) then {Problem(where, NoMatch)}
    else {}
  }

  function AsReal(v: Value): real
    requires v.Int? || v.Float?
  {
    if v.Int? then v.n as real else v.r
  }

  function NumberProblems(s: Schema, v: Value, where: seq<Step>): set<Problem>
    requires s.Schema?
  {
    if !v.Int? && !v.Float? then {Problem(where, NotANumber)}
    else if s.kind == Some(Integer) && !v.Int? then {Problem(where, NotAnInteger)}
    else if s.minimum.Some? && AsReal(v) < s.minimum.value then {Problem(where, BelowMinimum)}
    else if s.maximum.Some? && AsReal(v) > s.maximum.value then {Problem(where, AboveMaximum)}
    else {}
  }

  /** What is wrong with the value itself, leaving what is inside it aside. */
  function Local(fits: Fullmatch, s: Schema, v: Value, where: seq<Step>): set<Problem>
    requires Supported(s)
  {
    match s.kind.value
    case Object =>
      if !v.Obj? then {Problem(where, NotAnObject)}
      else
        (set k | k in v.fields && k !in s.Properties() :: Problem(where, NotAllowed(k)))
        + (set k | k in s.Required() && k !in v.fields :: Problem(where, IsRequired(k)))
    case Text => TextProblems(fits, s, v, where)
    case Number => NumberProblems(s, v, where)
    case Integer => NumberProblems(s, v, where)
    case Boolean => if v.Bool? then {} else {Problem(where, NotABoolean)}
    case Array =>
      if !v.Arr? then {Problem(where, NotAnArray)}
      else if |v.items| > Min(s.maxItems.value, MAX_ITEMS) then {Problem(where, TooManyItems)}
      else {}
  }

  /** The keys and items that are looked into: the declared keys, and no item of an array that is too long. */
  function Visited(s: Schema, v: Value): (steps: set<Step>)
    requires Supported(s)
    ensures forall step | step in steps :: Child(s, v, step)
  {
    if s.kind == Some(Object) && v.Obj? then set k | k in s.Properties() && k in v.fields :: Key(k)
    else if s.kind == Some(Array) && v.Arr? && |v.items| <= Min(s.maxItems.value, MAX_ITEMS) then
      set i: nat | 0 <= i < |v.items| :: Item(i)
    else {}
  }

  /** `step` leads from `v` to a part of it that the schema has a schema for. */
  predicate Child(s: Schema, v: Value, step: Step)
    requires Supported(s)
  {
    match step
    case Key(k) => s.kind == Some(Object) && v.Obj? && k in v.fields && k in s.Properties()
    case Item(i) => s.kind == Some(Array) && v.Arr? && i < |v.items|
  }

  function ChildSchema(s: Schema, v: Value, step: Step): (c: Schema)
    requires Supported(s) && Child(s, v, step)
    ensures c < s && (Checked(s) ==> Checked(c))
  {
    match step case Key(k) => s.Properties()[k] case Item(_) => s.items.value
  }

  function ChildValue(s: Schema, v: Value, step: Step): (c: Value)
    requires Supported(s) && Child(s, v, step)
    ensures c < v
  {
    match step case Key(k) => v.fields[k] case Item(i) => v.items[i]
  }

  /** Why a value does not fit a schema. Empty means it fits. */
  function Problems(fits: Fullmatch, s: Schema, v: Value, where: seq<Step>): set<Problem>
    requires Checked(s)
    decreases s, 1
  {
    Local(fits, s, v, where) + Inside(fits, s, v, where, Visited(s, v))
  }

  function Inside(fits: Fullmatch, s: Schema, v: Value, where: seq<Step>, steps: set<Step>): set<Problem>
    requires Checked(s) && steps <= Visited(s, v)
    decreases s, 0
  {
    set step, p | step in steps
                  && p in Problems(fits, ChildSchema(s, v, step), ChildValue(s, v, step), where + [step]) :: p
  }

  /**
   Which problem is reported, at this place: a choice before a length before a pattern, a type before
   a range, and the least before the greatest.
   */
  lemma ReportedExactlyWhen(fits: Fullmatch, s: Schema, v: Value, where: seq<Step>, what: What)
    requires Supported(s)
    ensures forall p | p in Local(fits, s, v, where) :: p.where == where
    ensures Problem(where, what) in Local(fits, s, v, where) <==>
              var kind := s.kind.value;
              var short := v.Str? && |v.s| <= 20000 && (s.maxLength.Some? ==> |v.s| <= s.maxLength.value);
              var number := if v.Int? then v.n as real else if v.Float? then v.r else 0.0;
              var counted := (kind == Number && (v.Int? || v.Float?)) || (kind == Integer && v.Int?);
              match what
              case NotAnObject => kind == Object && !v.Obj?
              case NotAllowed(k) =>
                kind == Object && v.Obj? && k in v.fields && !(s.declared.Declared? && k in s.declared.properties)
              case IsRequired(k) =>
                kind == Object && v.Obj? && k !in v.fields && s.required.Some? && k in s.required.value
              case NotAString => kind == Text && !v.Str?
              case NotAChoice => kind == Text && v.Str? && s.choices.Some? && v.s !in s.choices.value
              case TooLong => kind == Text && v.Str? && (s.choices.Some? ==> v.s in s.choices.value) && !short
              case NoMatch =>
                && kind == Text && v.Str? && (s.choices.Some? ==> v.s in s.choices.value) && short
                && s.pattern.Some? && !fits(s.pattern.value, v.s)
              case NotANumber => (kind == Number || kind == Integer) && !v.Int? && !v.Float?
              case NotAnInteger => kind == Integer && v.Float?
              case BelowMinimum => counted && s.minimum.Some? && number < s.minimum.value
              case AboveMaximum =>
                && counted && !(s.minimum.Some? && number < s.minimum.value)
                && s.maximum.Some? && s.maximum.value < number
              case NotABoolean => kind == Boolean && !v.Bool?
              case NotAnArray => kind == Array && !v.Arr?
              case TooManyItems => kind == Array && v.Arr? && (100 < |v.items| || s.maxItems.value < |v.items|)
              case UnsupportedType => false
  {
    hide OnlyKnownKeywords;
  }

  /** Every declared key that is there is looked into, and every item of an array that is not too long. */
  lemma LookedIntoExactlyWhen(s: Schema, v: Value, step: Step)
    requires Supported(s)
    ensures step in Visited(s, v) <==>
              Child(s, v, step) && (v.Arr? ==> |v.items| <= 100 && |v.items| <= s.maxItems.value)
  {
    hide OnlyKnownKeywords;
  }

  // ── What it means to fit ──────────────────────────────────────────────

  /** The schema that governs what is at a path: that of the property, or of the items. */
  function Governing(s: Schema, path: seq<Step>): Option<Schema>
    decreases |path|
  {
    if path == [] then Some(s)
    else if !s.Schema? then None
    else
      match path[0]
      case Key(k) => if s.kind == Some(Object) && k in s.Properties() then Governing(s.Properties()[k], path[1..]) else None
      case Item(_) => if s.kind == Some(Array) && s.items.Some? then Governing(s.items.value, path[1..]) else None
  }

  /** What one schema asks of one value, leaving what is inside it aside. */
  predicate Fits(fits: Fullmatch, s: Schema, v: Value)
    requires Supported(s)
  {
    match s.kind.value
    case Object =>
      && v.Obj? && v.fields.Keys <= s.Properties().Keys
      && forall k | k in s.Required() :: k in v.fields
    case Text =>
      && v.Str? && |v.s| <= 20000 && (s.maxLength.Some? ==> |v.s| <= s.maxLength.value)
      && (s.choices.Some? ==> v.s in s.choices.value)
      && (s.pattern.Some? ==> fits(s.pattern.value, v.s))
    case Number => (v.Int? || v.Float?) && Within(s, v)
    case Integer => v.Int? && Within(s, v)
    case Boolean => v.Bool?
    case Array => v.Arr? && |v.items| <= s.maxItems.value && |v.items| <= 100
  }

  predicate Within(s: Schema, v: Value)
    requires s.Schema? && (v.Int? || v.Float?)
  {
    var number := if v.Int? then v.n as real else v.r;
    && (s.minimum.Some? ==> s.minimum.value <= number)
    && (s.maximum.Some? ==> number <= s.maximum.value)
  }

  predicate FitsAt(fits: Fullmatch, s: Schema, v: Value, path: seq<Step>)
    requires Checked(s)
  {
    At(v, path).Some? ==>
      && Governing(s, path).Some? && Checked(Governing(s, path).value)
      && Fits(fits, Governing(s, path).value, At(v, path).value)
  }

  /** Everywhere inside the value, there is a schema that allows what is there. */
  ghost predicate Conforms(fits: Fullmatch, s: Schema, v: Value)
    requires Checked(s)
  {
    forall path :: FitsAt(fits, s, v, path)
  }

  lemma StepDown(s: Schema, v: Value, step: Step, rest: seq<Step>)
    requires Supported(s) && Child(s, v, step)
    ensures At(v, [step] + rest) == At(ChildValue(s, v, step), rest)
    ensures Governing(s, [step] + rest) == Governing(ChildSchema(s, v, step), rest)
  {
    hide OnlyKnownKeywords;
    assert ([step] + rest)[1..] == rest;
  }

  lemma StepIsAChild(fits: Fullmatch, s: Schema, v: Value, path: seq<Step>)
    requires Supported(s) && Fits(fits, s, v) && path != [] && At(v, path).Some?
    ensures Child(s, v, path[0]) && path == [path[0]] + path[1..]
  {
    hide OnlyKnownKeywords;
  }

  /** A value fits everywhere exactly when it fits here and its parts fit everywhere. */
  lemma ConformsInside(fits: Fullmatch, s: Schema, v: Value)
    requires Checked(s)
    ensures Conforms(fits, s, v) <==>
              && Fits(fits, s, v)
              && forall step | Child(s, v, step) :: Conforms(fits, ChildSchema(s, v, step), ChildValue(s, v, step))
  {
    hide Supported, Fits, Child, ChildSchema, ChildValue;
    if Conforms(fits, s, v) {
      assert FitsAt(fits, s, v, []);
      forall step, rest | Child(s, v, step)
        ensures FitsAt(fits, ChildSchema(s, v, step), ChildValue(s, v, step), rest)
      {
        StepDown(s, v, step, rest);
        assert FitsAt(fits, s, v, [step] + rest);
      }
    }
    if && Fits(fits, s, v)
       && forall step | Child(s, v, step) :: Conforms(fits, ChildSchema(s, v, step), ChildValue(s, v, step)) {
      forall path
        ensures FitsAt(fits, s, v, path)
      {
        if path != [] && At(v, path).Some? {
          StepIsAChild(fits, s, v, path);
          StepDown(s, v, path[0], path[1..]);
          assert FitsAt(fits, ChildSchema(s, v, path[0]), ChildValue(s, v, path[0]), path[1..]);
        }
      }
    }
  }

  lemma NothingLocalExactlyWhenItFits(fits: Fullmatch, s: Schema, v: Value, where: seq<Step>)
    requires Supported(s)
    ensures Local(fits, s, v, where) == {} <==> Fits(fits, s, v)
    ensures Fits(fits, s, v) ==> forall step :: Child(s, v, step) <==> step in Visited(s, v)
  {
    hide OnlyKnownKeywords;
    if s.kind == Some(Object) && v.Obj? {
      forall k | k in v.fields && k !in s.Properties()
        ensures Problem(where, NotAllowed(k)) in Local(fits, s, v, where)
      {
      }
      forall k | k in s.Required() && k !in v.fields
        ensures Problem(where, IsRequired(k)) in Local(fits, s, v, where)
      {
      }
    }
  }

  /** No problem is found exactly when the value fits the schema everywhere. */
  lemma {:induction false} NoProblemExactlyWhenItConforms(fits: Fullmatch, s: Schema, v: Value, where: seq<Step>)
    requires Checked(s)
    ensures Problems(fits, s, v, where) == {} <==> Conforms(fits, s, v)
    decreases s
  {
    hide Supported, Fits, Local, Visited, Child, ChildSchema, ChildValue, Conforms;
    NothingLocalExactlyWhenItFits(fits, s, v, where);
    ConformsInside(fits, s, v);
    forall step | Child(s, v, step)
      ensures Problems(fits, ChildSchema(s, v, step), ChildValue(s, v, step), where + [step]) == {} <==>
                Conforms(fits, ChildSchema(s, v, step), ChildValue(s, v, step))
    {
      NoProblemExactlyWhenItConforms(fits, ChildSchema(s, v, step), ChildValue(s, v, step), where + [step]);
    }
    forall step | step in Visited(s, v)
      ensures Problems(fits, ChildSchema(s, v, step), ChildValue(s, v, step), where + [step]) <= Problems(fits, s, v, where)
    {
    }
  }

  // ── How large an answer can be ────────────────────────────────────────

  ghost function Sum(m: map<string, nat>): nat
    decreases |m|
  {
    if m == map[] then 0
    else
      var k :| k in m;
      m[k] + Sum(m - {k})
  }

  lemma {:induction false} SumRemoves(m: map<string, nat>, k: string)
    requires k in m
    ensures Sum(m) == m[k] + Sum(m - {k})
    decreases |m|
  {
    var j :| j in m && Sum(m) == m[j] + Sum(m - {j});
    if j != k {
      SumRemoves(m - {j}, k);
      SumRemoves(m - {k}, j);
      assert m - {j} - {k} == m - {k} - {j};
    }
  }

  lemma {:induction false} SumGrows(m: map<string, nat>, n: map<string, nat>)
    requires m.Keys <= n.Keys && forall k | k in m :: m[k] <= n[k]
    ensures Sum(m) <= Sum(n)
    decreases |n|
  {
    if n != map[] {
      var k :| k in n;
      SumRemoves(n, k);
      if k in m {
        SumRemoves(m, k);
        SumGrows(m - {k}, n - {k});
      } else {
        SumGrows(m, n - {k});
      }
    }
  }

  /** Values, counted one each, and the characters of keys and strings. */
  ghost function Size(v: Value): nat
    decreases v
  {
    match v
    case Str(s) => 1 + |s|
    case Arr(items) => 1 + SizeOfAll(items)
    case Obj(fields) => 1 + Sum(map k | k in fields :: |k| + Size(fields[k]))
    case _ => 1
  }

  ghost function SizeOfAll(items: seq<Value>): nat
    decreases items
  {
    if items == [] then 0 else Size(items[0]) + SizeOfAll(items[1..])
  }

  function AtLeastZero(n: int): nat { if n < 0 then 0 else n }

  function PropertySchema(s: Schema, k: string): (c: Schema)
    requires Checked(s) && s.kind == Some(Object) && k in s.Properties()
    ensures c < s && Checked(c)
  {
    s.Properties()[k]
  }

  function Times(few: nat, each: nat): nat { few * each }

  /** The largest size an answer to this schema can have. */
  ghost function Bound(s: Schema): nat
    requires Checked(s)
    decreases s
  {
    match s.kind.value
    case Object => 1 + Sum(map k | k in s.Properties() :: |k| + Bound(PropertySchema(s, k)))
    case Text => 1 + AtLeastZero(LengthLimit(s))
    case Array => 1 + Times(AtLeastZero(Min(s.maxItems.value, MAX_ITEMS)), Bound(s.items.value))
    case _ => 1
  }

  lemma MoreOfThem(few: nat, many: nat, each: nat)
    requires few <= many
    ensures few * each <= Times(many, each)
  {
  }

  lemma {:induction false} SizeOfFew(items: seq<Value>, each: nat)
    requires forall v | v in items :: Size(v) <= each
    ensures SizeOfAll(items) <= |items| * each
  {
    if items != [] {
      SizeOfFew(items[1..], each);
      assert |items| * each == each + (|items| - 1) * each;
    }
  }

  /** Every value that fits is at most as large as the schema allows. */
  lemma {:induction false} ConformingIsBounded(fits: Fullmatch, s: Schema, v: Value)
    requires Checked(s) && Conforms(fits, s, v)
    ensures Size(v) <= Bound(s)
    decreases s
  {
    hide Supported, Fits, Child, ChildSchema, ChildValue, Conforms, Size, Bound;
    ConformsInside(fits, s, v);
    forall step | Child(s, v, step)
      ensures Size(ChildValue(s, v, step)) <= Bound(ChildSchema(s, v, step))
    {
      ConformingIsBounded(fits, ChildSchema(s, v, step), ChildValue(s, v, step));
    }
    BoundFromParts(fits, s, v);
  }

  lemma BoundFromParts(fits: Fullmatch, s: Schema, v: Value)
    requires Checked(s) && Fits(fits, s, v)
    requires forall step | Child(s, v, step) :: Size(ChildValue(s, v, step)) <= Bound(ChildSchema(s, v, step))
    ensures Size(v) <= Bound(s)
  {
    hide OnlyKnownKeywords;
    if s.kind == Some(Object) {
      ObjectBound(s, v);
    } else if s.kind == Some(Array) {
      ArrayBound(s, v);
    }
  }

  lemma ObjectBound(s: Schema, v: Value)
    requires Checked(s) && s.kind == Some(Object) && v.Obj? && v.fields.Keys <= s.Properties().Keys
    requires forall step | Child(s, v, step) :: Size(ChildValue(s, v, step)) <= Bound(ChildSchema(s, v, step))
    ensures Size(v) <= Bound(s)
  {
    hide OnlyKnownKeywords;
    var sizes := map k | k in v.fields :: |k| + Size(v.fields[k]);
    var bounds := map k | k in s.Properties() :: |k| + Bound(PropertySchema(s, k));
    forall k | k in sizes
      ensures sizes[k] <= bounds[k]
    {
      assert Child(s, v, Key(k));
    }
    SumGrows(sizes, bounds);
  }

  lemma ArrayBound(s: Schema, v: Value)
    requires Checked(s) && s.kind == Some(Array) && v.Arr? && |v.items| <= Min(s.maxItems.value, MAX_ITEMS)
    requires forall step | Child(s, v, step) :: Size(ChildValue(s, v, step)) <= Bound(ChildSchema(s, v, step))
    ensures Size(v) <= Bound(s)
  {
    hide OnlyKnownKeywords;
    var each := Bound(s.items.value);
    forall item | item in v.items
      ensures Size(item) <= each
    {
      var i :| 0 <= i < |v.items| && v.items[i] == item;
      assert Child(s, v, Item(i));
    }
    hide Times;
    SizeOfFew(v.items, each);
    MoreOfThem(|v.items|, AtLeastZero(Min(s.maxItems.value, MAX_ITEMS)), each);
  }

  // ── The validator ─────────────────────────────────────────────────────

  /** Refuse a schema this validator would not enforce completely. */
  method CheckSchema(s: Schema) returns (ok: bool)
    ensures ok == Checked(s)
    decreases s, 1
  {
    hide OnlyKnownKeywords;
    if s.NotAMapping? || s.kind.None? {
      return false;
    }
    if !OnlyKnownKeywords(s) {
      return false;
    }
    match s.kind.value {
      case Object =>
        if s.additionalProperties != Some(false) {
          return false;
        }
        for i := 0 to |s.Required()|
          invariant forall j | 0 <= j < i :: s.Required()[j] in s.Properties()
        {
          if s.Required()[i] !in s.Properties() {
            return false;
          }
        }
        ok := CheckProperties(s);
      case Text => ok := s.choices.Some? || s.maxLength.Some?;
      case Array =>
        if s.maxItems.None? || s.items.None? {
          return false;
        }
        ok := CheckSchema(s.items.value);
      case _ => ok := true;
    }
  }

  method CheckProperties(s: Schema) returns (ok: bool)
    requires s.Schema?
    ensures ok <==> forall k | k in s.Properties() :: Checked(s.Properties()[k])
    decreases s, 0
  {
    hide Checked;
    var left := s.Properties().Keys;
    while left != {}
      invariant left <= s.Properties().Keys
      invariant forall k | k in s.Properties() && k !in left :: Checked(s.Properties()[k])
      decreases |left|
    {
      var k :| k in left;
      var child := CheckSchema(s.Properties()[k]);
      if !child {
        return false;
      }
      left := left - {k};
    }
    ok := true;
  }

  /** Validate one answer: what is found, in no particular order. */
  method Validate(fits: Fullmatch, s: Schema, v: Value, where: seq<Step>) returns (found: set<Problem>)
    requires Checked(s)
    ensures found == Problems(fits, s, v, where)
    ensures found == {} <==> Conforms(fits, s, v)
    ensures found == {} ==> Size(v) <= Bound(s)
    decreases s, 1
  {
    hide OnlyKnownKeywords, Conforms, Local, Visited, Child, ChildSchema, ChildValue, Size, Bound;
    var inside := ValidateInside(fits, s, v, where);
    found := Local(fits, s, v, where) + inside;
    NoProblemExactlyWhenItConforms(fits, s, v, where);
    if found == {} {
      ConformingIsBounded(fits, s, v);
    }
  }

  lemma InsideNothing(fits: Fullmatch, s: Schema, v: Value, where: seq<Step>)
    requires Checked(s)
    ensures Inside(fits, s, v, where, {}) == {}
  {
    hide Supported, Problems, Visited, Child, ChildSchema, ChildValue;
  }

  lemma InsideGrows(fits: Fullmatch, s: Schema, v: Value, where: seq<Step>, steps: set<Step>, step: Step)
    requires Checked(s) && steps + {step} <= Visited(s, v)
    ensures Inside(fits, s, v, where, steps + {step})
              == Inside(fits, s, v, where, steps)
                 + Problems(fits, ChildSchema(s, v, step), ChildValue(s, v, step), where + [step])
  {
    hide Supported, Problems, Visited, Child, ChildSchema, ChildValue;
  }

  method ValidateInside(fits: Fullmatch, s: Schema, v: Value, where: seq<Step>) returns (found: set<Problem>)
    requires Checked(s)
    ensures found == Inside(fits, s, v, where, Visited(s, v))
    decreases s, 0
  {
    hide Supported, Conforms, Problems, Inside, Visited, Child, ChildSchema, ChildValue, Size, Bound;
    found := {};
    InsideNothing(fits, s, v, where);
    assert Visited(s, v) - Visited(s, v) == {};
    var left := Visited(s, v);
    while left != {}
      invariant left <= Visited(s, v)
      invariant found == Inside(fits, s, v, where, Visited(s, v) - left)
      decreases |left|
    {
      var step :| step in left;
      var more := Validate(fits, ChildSchema(s, v, step), ChildValue(s, v, step), where + [step]);
      InsideGrows(fits, s, v, where, Visited(s, v) - left, step);
      assert Visited(s, v) - (left - {step}) == Visited(s, v) - left + {step};
      found := found + more;
      left := left - {step};
    }
    assert Visited(s, v) - {} == Visited(s, v);
  }
}
