/**
 Typed SOP parameters, as engine/parameters.py binds and renders them. What a ticket field or an
 extraction pattern yields, Python's `str` and `int`, and the regex engine are parameters.
 */
module Parameters {
  import opened Wrappers
  import opened Json
  import opened JsonPath

  // ── Placeholders in text ──────────────────────────────────────────────

  predicate StartsName(c: char) { 'A' <= c <= 'Z' || 'a' <= c <= 'z' || c == '_' }

  predicate InName(c: char) { StartsName(c) || '0' <= c <= '9' }

  function NameLength(s: string): (n: nat)
    ensures n <= |s| && (forall i | 0 <= i < n :: InName(s[i])) && (n < |s| ==> !InName(s[n]))
  {
    if s != [] && InName(s[0]) then 1 + NameLength(s[1..]) else 0
  }

  predicate IsName(s: string) {
    s != [] && StartsName(s[0]) && forall i | 0 <= i < |s| :: InName(s[i])
  }

  /** The name of the placeholder that `s` begins with. */
  function Leading(s: string): (name: Option<string>)
    ensures name.Some? ==> IsName(name.value) && Hole(name.value).Shown() <= s
  {
    if !("${" <= s) then None
    else
      var n := NameLength(s[2..]);
      if n > 0 && StartsName(s[2]) && "}" <= s[2 + n..]
      then
        assert Hole(s[2..2 + n]).Shown() == s[..3 + n];
        Some(s[2..2 + n])
      else None
  }

  /** The text begins with the placeholder of a name: a letter or underscore, then letters, digits and underscores. */
  lemma LeadingExactlyWhen(s: string, name: string)
    ensures Leading(s) == Some(name) <==>
              && "${" + name + "}" <= s
              && name != "" && !('0' <= name[0] <= '9')
              && forall c | c in name :: 'A' <= c <= 'Z' || 'a' <= c <= 'z' || '0' <= c <= '9' || c == '_'
  {
    if Leading(s) == Some(name) {
      assert IsName(name) && Hole(name).Shown() == "${" + name + "}";
      assert forall c | c in name :: InName(c);
    }
    if && "${" + name + "}" <= s && name != "" && !('0' <= name[0] <= '9')
       && forall c | c in name :: 'A' <= c <= 'Z' || 'a' <= c <= 'z' || '0' <= c <= '9' || c == '_' {
      assert forall i | 0 <= i < |name| :: name[i] in name;
      APlaceholderLeads(s, name);
    }
  }

  lemma APlaceholderLeads(s: string, name: string)
    requires IsName(name) && "${" + name + "}" <= s
    ensures Leading(s) == Some(name)
  {
    hide StartsName;
    var after := s[2..];
    assert after[..|name|] == name && after[|name|] == '}';
    assert forall i | 0 <= i < |name| :: after[i] == name[i];
    assert NameLength(after) == |name| by {
      assert !InName('}') by {
        NoNameHasABrace();
      }
    }
    assert "}" <= s[2 + |name|..] && s[2..2 + |name|] == name;
  }

  lemma NoNameHasABrace()
    ensures !InName('}')
  {
  }

  datatype Segment = Char(c: char) | Hole(name: string)
  {
    function Shown(): string {
      match this case Char(c) => [c] case Hole(name) => "${" + name + "}"
    }
  }

  /** Text as characters and placeholders, left to right. */
  function Split(s: string): seq<Segment>
    decreases |s|
  {
    if s == [] then []
    else
      var name := Leading(s);
      if name.Some? then [Hole(name.value)] + Split(s[|name.value| + 3..])
      else [Char(s[0])] + Split(s[1..])
  }

  function Joined(segments: seq<Segment>): string {
    if segments == [] then "" else segments[0].Shown() + Joined(segments[1..])
  }

  function Holes(segments: seq<Segment>): set<string> {
    set seg | seg in segments && seg.Hole? :: seg.name
  }

  lemma HoleThenRest(name: string, s: string)
    requires Hole(name).Shown() <= s
    ensures s == Hole(name).Shown() + s[|name| + 3..]
  {
    assert |Hole(name).Shown()| == |name| + 3;
  }

  /** Splitting loses nothing. */
  lemma {:induction false} SplittingKeepsTheText(s: string)
    ensures Joined(Split(s)) == s
    decreases |s|
  {
    hide Leading, IsName;
    if s != [] {
      var name := Leading(s);
      if name.Some? {
        HoleThenRest(name.value, s);
        SplittingKeepsTheText(s[|name.value| + 3..]);
      } else {
        SplittingKeepsTheText(s[1..]);
      }
    }
  }

  // ── Rendering ─────────────────────────────────────────────────────────

  type Values = map<string, Value>

  /** Python's `str`. */
  type Text = Value -> string

  function Lookup(name: string, values: Values): Result<Value> {
    if name in values then Ok(values[name]) else Err
  }

  /** The name, when the text is exactly one placeholder. */
  function Whole(s: string): Option<string> {
    var name := Leading(s);
    if name.Some? && |s| == |name.value| + 3 then name else None
  }

  /** Every placeholder replaced by the text of its value, in one pass from left to right. */
  function Substituted(str: Text, s: string, values: Values): Result<string>
    decreases |s|
  {
    if s == [] then Ok("")
    else
      var name := Leading(s);
      if name.None? then
        var rest :- Substituted(str, s[1..], values);
        Ok([s[0]] + rest)
      else
        var value :- Lookup(name.value, values);
        var rest :- Substituted(str, s[|name.value| + 3..], values);
        Ok(str(value) + rest)
  }

  function Render(str: Text, v: Value, values: Values): Result<Value>
    decreases v
  {
    match v
    case Str(s) =>
      if Whole(s).Some? then Lookup(Whole(s).value, values)
      else
        var text :- Substituted(str, s, values);
        Ok(Str(text))
    case Obj(fields) =>
      if forall k | k in fields :: Render(str, fields[k], values).Ok?
      then Ok(Obj(map k | k in fields :: Render(str, fields[k], values).value))
      else Err
    case Arr(items) =>
      if forall i | 0 <= i < |items| :: Render(str, items[i], values).Ok?
      then Ok(Arr(seq(|items|, i requires 0 <= i < |items| => Render(str, items[i], values).value)))
      else Err
    case _ => Ok(v)
  }

  /** Every name used anywhere inside. */
  function Placeholders(v: Value): set<string>
    decreases v, 1
  {
    match v
    case Str(s) => Holes(Split(s))
    case Obj(fields) => UsedUnder(v, fields.Keys)
    case Arr(items) => UsedBefore(v, |items|)
    case _ => {}
  }

  function UsedUnder(v: Value, keys: set<string>): set<string>
    requires v.Obj? && keys <= v.fields.Keys
    decreases v, 0
  {
    set k, name | k in keys && name in Placeholders(v.fields[k]) :: name
  }

  function UsedBefore(v: Value, n: nat): set<string>
    requires v.Arr? && n <= |v.items|
    decreases v, 0
  {
    set i, name | 0 <= i < n && name in Placeholders(v.items[i]) :: name
  }

  /** The text each segment becomes: itself, or the text of its value, which is not looked at again. */
  function Filled(str: Text, segments: seq<Segment>, values: Values): string
    requires Holes(segments) <= values.Keys
  {
    if segments == [] then ""
    else
      assert segments[0] in segments;
      assert segments[0].Hole? ==> segments[0].name in Holes(segments);
      HolesOfRest(segments);
      (if segments[0].Hole? then str(values[segments[0].name]) else segments[0].Shown())
      + Filled(str, segments[1..], values)
  }

  lemma HolesOfRest(segments: seq<Segment>)
    requires segments != []
    ensures Holes(segments) == Holes(segments[1..]) + if segments[0].Hole? then {segments[0].name} else {}
  {
    assert segments == [segments[0]] + segments[1..];
  }

  /** Text renders exactly when its placeholders are bound, and each is filled in where it stood. */
  lemma {:induction false} TextRendersExactlyWhen(str: Text, s: string, values: Values)
    ensures Substituted(str, s, values).Ok? <==> Holes(Split(s)) <= values.Keys
    ensures Holes(Split(s)) <= values.Keys ==> Substituted(str, s, values).value == Filled(str, Split(s), values)
    decreases |s|
  {
    if s != [] {
      var name := Leading(s);
      HolesOfRest(Split(s));
      var rest := if name.Some? then s[|name.value| + 3..] else s[1..];
      assert Split(s)[1..] == Split(rest);
      TextRendersExactlyWhen(str, rest, values);
    }
  }

  lemma WholeIsOneHole(s: string)
    ensures Whole(s).Some? ==> Split(s) == [Hole(Whole(s).value)] && Holes(Split(s)) == {Whole(s).value}
  {
    if Whole(s).Some? {
      assert s[|s|..] == [];
      assert Split(s) == [Hole(Whole(s).value)];
      HolesOfRest(Split(s));
    }
  }

  /** A structure renders exactly when every placeholder in it is bound. */
  lemma {:induction false} RendersExactlyWhen(str: Text, v: Value, values: Values)
    ensures Render(str, v, values).Ok? <==> Placeholders(v) <= values.Keys
    decreases v
  {
    match v
    case Str(s) =>
      WholeIsOneHole(s);
      TextRendersExactlyWhen(str, s, values);
    case Obj(fields) =>
      forall k | k in fields
        ensures Render(str, fields[k], values).Ok? <==> Placeholders(fields[k]) <= values.Keys
        ensures Placeholders(fields[k]) <= Placeholders(v)
      {
        RendersExactlyWhen(str, fields[k], values);
      }
    case Arr(items) =>
      forall i | 0 <= i < |items|
        ensures Render(str, items[i], values).Ok? <==> Placeholders(items[i]) <= values.Keys
        ensures Placeholders(items[i]) <= Placeholders(v)
      {
        RendersExactlyWhen(str, items[i], values);
      }
    case _ =>
  }

  /** What stands at a place of the rendered structure is what stood there, rendered: nothing moves. */
  lemma {:induction false} RenderingKeepsPlaces(str: Text, v: Value, values: Values, path: seq<Step>)
    requires Render(str, v, values).Ok? && At(v, path).Some?
    ensures Render(str, At(v, path).value, values).Ok?
    ensures At(Render(str, v, values).value, path) == Some(Render(str, At(v, path).value, values).value)
    decreases |path|
  {
    if path != [] {
      match path[0]
      case Key(k) => RenderingKeepsPlaces(str, v.fields[k], values, path[1..]);
      case Item(i) => RenderingKeepsPlaces(str, v.items[i], values, path[1..]);
    }
  }

  /** Containers keep their keys and lengths, and everything that is not text is left as it is. */
  lemma RenderingKeepsShape(str: Text, v: Value, values: Values)
    requires Render(str, v, values).Ok?
    ensures var r := Render(str, v, values).value;
            match v
            case Obj(fields) => r.Obj? && r.fields.Keys == fields.Keys
            case Arr(items) => r.Arr? && |r.items| == |items|
            case Str(s) => if Whole(s).Some? then r == values[Whole(s).value] else r.Str?
            case _ => r == v
  {
  }

  /** Text that is one placeholder and nothing else becomes the value itself, not its text. */
  lemma AWholePlaceholderKeepsItsType(str: Text, s: string, values: Values, name: string)
    requires s == "${" + name + "}" && IsName(name) && name in values
    ensures Render(str, Str(s), values) == Ok(values[name])
  {
    LeadingExactlyWhen(s, name);
    hide Leading;
  }

  /** Any other text becomes text. */
  lemma OtherTextBecomesText(str: Text, s: string, values: Values)
    requires forall name | IsName(name) :: s != "${" + name + "}"
    ensures Render(str, Str(s), values).Ok? ==> Render(str, Str(s), values).value.Str?
  {
    if Whole(s).Some? {
      WholeTextIsAPlaceholder(s);
    }
  }

  lemma WholeTextIsAPlaceholder(s: string)
    requires Whole(s).Some?
    ensures IsName(Whole(s).value) && s == "${" + Whole(s).value + "}"
  {
    assert |Hole(Whole(s).value).Shown()| == |s|;
  }

  /** Only the values of the placeholders used matter. */
  lemma {:induction false} OnlyUsedValuesMatter(str: Text, v: Value, a: Values, b: Values)
    requires forall name | name in Placeholders(v) :: name in a && name in b && a[name] == b[name]
    ensures Render(str, v, a) == Render(str, v, b) && Render(str, v, a).Ok?
    decreases v
  {
    RendersExactlyWhen(str, v, a);
    RendersExactlyWhen(str, v, b);
    match v
    case Str(s) =>
      WholeIsOneHole(s);
      TextRendersExactlyWhen(str, s, a);
      TextRendersExactlyWhen(str, s, b);
      SameFilling(str, Split(s), a, b);
    case Obj(fields) =>
      forall k | k in fields
        ensures Render(str, fields[k], a) == Render(str, fields[k], b) && Render(str, fields[k], a).Ok?
      {
        OnlyUsedValuesMatter(str, fields[k], a, b);
      }
      assert Render(str, v, a).value.fields == Render(str, v, b).value.fields;
    case Arr(items) =>
      forall i | 0 <= i < |items|
        ensures Render(str, items[i], a) == Render(str, items[i], b) && Render(str, items[i], a).Ok?
      {
        OnlyUsedValuesMatter(str, items[i], a, b);
      }
      assert Render(str, v, a).value.items == Render(str, v, b).value.items;
    case _ =>
  }

  lemma {:induction false} SameFilling(str: Text, segments: seq<Segment>, a: Values, b: Values)
    requires Holes(segments) <= a.Keys && Holes(segments) <= b.Keys
    requires forall name | name in Holes(segments) :: a[name] == b[name]
    ensures Filled(str, segments, a) == Filled(str, segments, b)
  {
    if segments != [] {
      HolesOfRest(segments);
      SameFilling(str, segments[1..], a, b);
    }
  }

  // ── Declarations ──────────────────────────────────────────────────────

  datatype Source =
    | Constant(value: Option<Value>)
    | TicketField(field: string)
    | Extraction(fields: seq<string>, regex: string, advisor: bool)
    | UnknownSource

  datatype Spec = Spec(
    name: string, isInteger: bool, source: Source, pattern: string, choices: seq<Value>, maxLength: int)

  datatype Sop = Sop(parameters: seq<Spec>, steps: seq<Value>)

  const DEFAULT_STRING_PATTERN: string := "[A-Za-z0-9_.\\-]+"
  const MAX_EXTRACTION_INPUT: nat := 10000

  /** Python and its regex engine: `str`, `strip`, `int`, `fullmatch`, and the group a search finds. */
  datatype Engine = Engine(
    str: Text, strip: string -> string, parse: string -> Option<int>,
    fullmatch: (string, string) -> bool, search: (string, string) -> Option<string>)

  /** The fields of the ticket that are set. */
  type Incident = map<string, Value>

  function FieldText(e: Engine, incident: Incident, field: string): string {
    if field in incident && Truthy(incident[field]) then e.str(incident[field]) else ""
  }

  predicate Truthy(v: Value) {
    match v
    case Null => false
    case Bool(b) => b
    case Int(n) => n != 0
    case Float(r) => r != 0.0
    case Str(s) => s != ""
    case Arr(items) => items != []
    case Obj(fields) => fields != map[]
  }

  function Lines(e: Engine, incident: Incident, fields: seq<string>): string {
    if fields == [] then ""
    else if |fields| == 1 then FieldText(e, incident, fields[0])
    else FieldText(e, incident, fields[0]) + "\n" + Lines(e, incident, fields[1..])
  }

  function Searched(e: Engine, incident: Incident, fields: seq<string>): string {
    var text := Lines(e, incident, fields);
    if |text| <= MAX_EXTRACTION_INPUT then text else text[..MAX_EXTRACTION_INPUT]
  }

  /** What the source of a parameter yields; `Err` for a source of no known kind. */
  function RawValue(e: Engine, spec: Spec, incident: Incident): Result<Option<Value>> {
    match spec.source
    case Constant(value) => Ok(value)
    case TicketField(field) => Ok(if field in incident then Some(incident[field]) else None)
    case Extraction(fields, regex, _) =>
      var found := e.search(regex, Searched(e, incident, fields));
      Ok(if found.Some? then Some(Str(found.value)) else None)
    case UnknownSource => Err
  }

  predicate Missing(raw: Option<Value>) {
    raw.None? || raw.value == Null || raw.value == Str("")
  }

  function Typed(e: Engine, spec: Spec, value: Value): Result<Value> {
    var text := e.strip(e.str(value));
    if spec.isInteger then (
      match e.parse(text)
      case Some(n) => Ok(Int(n))
      case None => Err
    )
    else if |text| > spec.maxLength then Err
    else if !e.fullmatch(if spec.pattern != "" then spec.pattern else DEFAULT_STRING_PATTERN, text) then Err
    else Ok(Str(text))
  }

  function Validate(e: Engine, spec: Spec, raw: Option<Value>): Result<Value> {
    if Missing(raw) then Err
    else
      var value :- Typed(e, spec, raw.value);
      if spec.choices != [] && forall c | c in spec.choices :: !PyEq(value, c) then Err else Ok(value)
  }

  /**
   The text of a value, without the white space around it, must be a number for an integer, and for
   text be short enough and match; and it must be one of the choices where there are any.
   */
  lemma ValidatesExactlyWhen(e: Engine, spec: Spec, raw: Option<Value>)
    ensures Validate(e, spec, raw).Ok? <==>
              && raw.Some? && raw.value != Null && raw.value != Str("")
              && var text := e.strip(e.str(raw.value));
                 && (if spec.isInteger then e.parse(text).Some?
                     else
                       && |text| <= spec.maxLength
                       && (spec.pattern != "" ==> e.fullmatch(spec.pattern, text))
                       && (spec.pattern == "" ==> e.fullmatch("[A-Za-z0-9_.\\-]+", text)))
                 && var value := if spec.isInteger then Int(e.parse(text).value) else Str(text);
                    spec.choices == [] || exists c | c in spec.choices :: PyEq(value, c)
    ensures Validate(e, spec, raw).Ok? ==>
              var text := e.strip(e.str(raw.value));
              Validate(e, spec, raw).value == if spec.isInteger then Int(e.parse(text).value) else Str(text)
  {
    hide PyEq;
  }

  /** What each source yields. Text is searched no further than its first 10000 characters. */
  lemma SourcesYield(e: Engine, spec: Spec, incident: Incident)
    ensures spec.source.Constant? ==> RawValue(e, spec, incident) == Ok(spec.source.value)
    ensures spec.source.TicketField? ==>
              RawValue(e, spec, incident) ==
                if spec.source.field in incident then Ok(Some(incident[spec.source.field])) else Ok(None)
    ensures spec.source.Extraction? ==>
              var text := Lines(e, incident, spec.source.fields);
              var found := e.search(spec.source.regex, if 10000 < |text| then text[..10000] else text);
              RawValue(e, spec, incident) == if found.Some? then Ok(Some(Str(found.value))) else Ok(None)
    ensures spec.source.UnknownSource? ==> RawValue(e, spec, incident).Err?
  {
    hide Lines;
  }

  /** A field that is not set, or holds nothing, is searched as no text. */
  lemma FieldsAreText(e: Engine, incident: Incident, field: string)
    ensures Lines(e, incident, []) == ""
    ensures Lines(e, incident, [field]) ==
              var nothing := {Null, Bool(false), Int(0), Float(0.0), Str(""), Arr([]), Obj(map[])};
              if field in incident && incident[field] !in nothing
              then e.str(incident[field]) else ""
  {
  }

  /** Several fields are searched one line after the other. */
  lemma {:induction false} LinesJoin(e: Engine, incident: Incident, a: seq<string>, b: seq<string>)
    requires a != [] && b != []
    ensures Lines(e, incident, a + b) == Lines(e, incident, a) + "\n" + Lines(e, incident, b)
  {
    hide FieldText;
    if |a| == 1 {
      assert (a + b)[1..] == b;
    } else {
      LinesJoin(e, incident, a[1..], b);
      assert (a + b)[1..] == a[1..] + b;
      LinesAssociate(FieldText(e, incident, a[0]), Lines(e, incident, a[1..]), Lines(e, incident, b));
    }
  }

  lemma LinesAssociate(x: string, y: string, z: string)
    ensures x + "\n" + y + "\n" + z == x + "\n" + (y + "\n" + z)
  {
  }

  /** One parameter from the ticket, or the reason the run stops. */
  function BindOne(e: Engine, spec: Spec, incident: Incident): Result<Value> {
    var raw :- RawValue(e, spec, incident);
    Validate(e, spec, raw)
  }

  function BindAll(e: Engine, specs: seq<Spec>, incident: Incident): Result<Values> {
    if specs == [] then Ok(map[])
    else
      var values :- BindAll(e, specs[..|specs| - 1], incident);
      var value :- BindOne(e, specs[|specs| - 1], incident);
      Ok(values[specs[|specs| - 1].name := value])
  }

  function Names(specs: seq<Spec>): set<string> {
    set spec | spec in specs :: spec.name
  }

  /** Binding succeeds exactly when every parameter binds; then exactly the declared names have values. */
  lemma {:induction false} BindsExactlyWhen(e: Engine, specs: seq<Spec>, incident: Incident)
    ensures BindAll(e, specs, incident).Ok? <==> forall spec | spec in specs :: BindOne(e, spec, incident).Ok?
    ensures BindAll(e, specs, incident).Ok? ==> BindAll(e, specs, incident).value.Keys == Names(specs)
  {
    if specs != [] {
      var before, last := specs[..|specs| - 1], specs[|specs| - 1];
      assert specs == before + [last];
      BindsExactlyWhen(e, before, incident);
      assert Names(specs) == Names(before) + {last.name};
    }
  }

  /** The value of a name is that of the last parameter declared with it. */
  lemma {:induction false} ValuesAreTheirOwn(e: Engine, specs: seq<Spec>, incident: Incident, k: nat)
    requires BindAll(e, specs, incident).Ok? && k < |specs|
    requires forall j | k < j < |specs| :: specs[j].name != specs[k].name
    ensures specs[k].name in BindAll(e, specs, incident).value
    ensures Ok(BindAll(e, specs, incident).value[specs[k].name]) == BindOne(e, specs[k], incident)
  {
    if k < |specs| - 1 {
      ValuesAreTheirOwn(e, specs[..|specs| - 1], incident, k);
    }
  }

  method BindParameters(e: Engine, sop: Sop, incident: Incident) returns (r: Result<Values>)
    ensures r == BindAll(e, sop.parameters, incident)
    ensures r.Ok? <==> forall spec | spec in sop.parameters :: BindOne(e, spec, incident).Ok?
    ensures r.Ok? ==> r.value.Keys == Names(sop.parameters)
  {
    hide BindOne;
    BindsExactlyWhen(e, sop.parameters, incident);
    var values: Values := map[];
    for k := 0 to |sop.parameters|
      invariant BindAll(e, sop.parameters[..k], incident) == Ok(values)
    {
      var spec := sop.parameters[k];
      assert sop.parameters[..k + 1][..k] == sop.parameters[..k];
      var value := BindOne(e, spec, incident);
      if value.Err? {
        assert spec in sop.parameters;
        return Err;
      }
      values := values[spec.name := value.value];
    }
    assert sop.parameters[..|sop.parameters|] == sop.parameters;
    r := Ok(values);
  }

  /** The values of the parameters that bind. */
  function BindThose(e: Engine, specs: seq<Spec>, incident: Incident): Values {
    if specs == [] then map[]
    else
      var values := BindThose(e, specs[..|specs| - 1], incident);
      match BindOne(e, specs[|specs| - 1], incident)
      case Ok(value) => values[specs[|specs| - 1].name := value]
      case Err => values
  }

  /** Where everything binds these are the values; otherwise those of the last parameters to bind. */
  lemma {:induction false} ThoseThatBind(e: Engine, specs: seq<Spec>, incident: Incident, k: nat)
    requires k < |specs| && BindOne(e, specs[k], incident).Ok?
    requires forall j | k < j < |specs| && specs[j].name == specs[k].name :: BindOne(e, specs[j], incident).Err?
    ensures specs[k].name in BindThose(e, specs, incident)
    ensures BindThose(e, specs, incident)[specs[k].name] == BindOne(e, specs[k], incident).value
  {
    hide BindOne;
    if k < |specs| - 1 {
      ThoseThatBind(e, specs[..|specs| - 1], incident, k);
    }
  }

  lemma {:induction false} NamesThatBind(e: Engine, specs: seq<Spec>, incident: Incident)
    ensures BindThose(e, specs, incident).Keys ==
              set spec | spec in specs && BindOne(e, spec, incident).Ok? :: spec.name
    ensures BindAll(e, specs, incident).Ok? ==> BindAll(e, specs, incident).value == BindThose(e, specs, incident)
  {
    hide BindOne;
    if specs != [] {
      NamesThatBind(e, specs[..|specs| - 1], incident);
      assert specs == specs[..|specs| - 1] + [specs[|specs| - 1]];
    }
  }

  /** Bind every parameter that binds: the values, the names that failed, and those the ticket did not have. */
  method BindWhatCanBe(e: Engine, sop: Sop, incident: Incident)
    returns (values: Values, failures: set<string>, notFound: seq<Spec>)
    ensures failures == set spec | spec in sop.parameters && BindOne(e, spec, incident).Err? :: spec.name
    ensures values.Keys == set spec | spec in sop.parameters && BindOne(e, spec, incident).Ok? :: spec.name
    ensures values == BindThose(e, sop.parameters, incident)
    ensures failures == {} <==> BindAll(e, sop.parameters, incident).Ok?
    ensures failures == {} ==> Ok(values) == BindAll(e, sop.parameters, incident)
    ensures forall spec :: spec in notFound <==>
              spec in sop.parameters && RawValue(e, spec, incident).Ok? && Missing(RawValue(e, spec, incident).value)
    ensures forall spec | spec in notFound :: spec.name in failures
  {
    hide Validate, RawValue, Missing, BindAll;
    values, failures, notFound := map[], {}, [];
    var specs := sop.parameters;
    for k := 0 to |specs|
      invariant failures == set spec | spec in specs[..k] && BindOne(e, spec, incident).Err? :: spec.name
      invariant values == BindThose(e, specs[..k], incident)
      invariant forall spec :: spec in notFound <==>
                  spec in specs[..k] && RawValue(e, spec, incident).Ok? && Missing(RawValue(e, spec, incident).value)
      invariant forall spec | spec in notFound :: spec.name in failures
    {
      var spec := specs[k];
      assert specs[..k + 1] == specs[..k] + [spec];
      assert specs[..k + 1][..k] == specs[..k];
      var raw := RawValue(e, spec, incident);
      if raw.Err? {
        failures := failures + {spec.name};
      } else {
        if Missing(raw.value) {
          notFound := notFound + [spec];
          MissingFails(e, spec, raw.value);
        }
        var value := Validate(e, spec, raw.value);
        if value.Ok? {
          values := values[spec.name := value.value];
        } else {
          failures := failures + {spec.name};
        }
      }
    }
    assert specs[..|specs|] == specs;
    BindsExactlyWhen(e, specs, incident);
    NamesThatBind(e, specs, incident);
    assert forall spec | spec in specs && BindOne(e, spec, incident).Err? :: spec.name in failures;
  }

  lemma MissingFails(e: Engine, spec: Spec, raw: Option<Value>)
    requires Missing(raw)
    ensures Validate(e, spec, raw).Err?
  {
  }

  // ── The static check is enough ────────────────────────────────────────

  function Used(steps: seq<Value>): set<string> {
    set i, name | 0 <= i < |steps| && name in Placeholders(steps[i]) :: name
  }

  function Undeclared(sop: Sop): set<string> {
    Used(sop.steps) - Names(sop.parameters)
  }

  /** Once the parameters are bound, every step renders exactly when no placeholder is undeclared. */
  lemma StaticCheckIsExact(e: Engine, sop: Sop, incident: Incident)
    requires BindAll(e, sop.parameters, incident).Ok?
    ensures Undeclared(sop) == {} <==>
              forall i | 0 <= i < |sop.steps| :: Render(e.str, sop.steps[i], BindAll(e, sop.parameters, incident).value).Ok?
  {
    var values := BindAll(e, sop.parameters, incident).value;
    BindsExactlyWhen(e, sop.parameters, incident);
    forall i | 0 <= i < |sop.steps|
      ensures Render(e.str, sop.steps[i], values).Ok? <==> Placeholders(sop.steps[i]) <= Names(sop.parameters)
    {
      RendersExactlyWhen(e.str, sop.steps[i], values);
    }
    if forall i | 0 <= i < |sop.steps| :: Render(e.str, sop.steps[i], values).Ok? {
      forall name | name in Used(sop.steps)
        ensures name in Names(sop.parameters)
      {
        var i :| 0 <= i < |sop.steps| && name in Placeholders(sop.steps[i]);
      }
      assert Undeclared(sop) == {};
    }
    if Undeclared(sop) == {} {
      forall i | 0 <= i < |sop.steps|
        ensures Placeholders(sop.steps[i]) <= Names(sop.parameters)
      {
        forall name | name in Placeholders(sop.steps[i])
          ensures name in Names(sop.parameters)
        {
          assert name in Used(sop.steps);
          assert name !in Undeclared(sop);
        }
      }
    }
  }

  lemma NothingUsed(v: Value)
    ensures v.Obj? ==> v.fields.Keys - v.fields.Keys == {} && UsedUnder(v, {}) == {}
    ensures v.Arr? ==> UsedBefore(v, 0) == {}
  {
  }

  lemma OneMoreKey(v: Value, keys: set<string>, k: string)
    requires v.Obj? && keys + {k} <= v.fields.Keys
    ensures UsedUnder(v, keys + {k}) == UsedUnder(v, keys) + Placeholders(v.fields[k])
  {
    hide Placeholders;
  }

  lemma OneMoreItem(v: Value, n: nat)
    requires v.Arr? && n < |v.items|
    ensures UsedBefore(v, n + 1) == UsedBefore(v, n) + Placeholders(v.items[n])
  {
    hide Placeholders;
  }

  /** Collect every name used anywhere in a structure. */
  method PlaceholdersIn(v: Value) returns (found: set<string>)
    ensures found == Placeholders(v)
    decreases v
  {
    hide UsedUnder, UsedBefore;
    found := {};
    NothingUsed(v);
    match v {
      case Str(s) => found := Holes(Split(s));
      case Obj(fields) =>
        var left := fields.Keys;
        while left != {}
          invariant left <= fields.Keys
          invariant found == UsedUnder(v, fields.Keys - left)
          decreases |left|
        {
          var k :| k in left;
          var inside := PlaceholdersIn(fields[k]);
          assert fields.Keys - (left - {k}) == fields.Keys - left + {k};
          OneMoreKey(v, fields.Keys - left, k);
          found := found + inside;
          left := left - {k};
        }
        assert fields.Keys - {} == fields.Keys;
      case Arr(items) =>
        for i := 0 to |items|
          invariant found == UsedBefore(v, i)
        {
          var inside := PlaceholdersIn(items[i]);
          OneMoreItem(v, i);
          found := found + inside;
        }
      case _ =>
    }
  }

  // ── Values a model located ────────────────────────────────────────────

  predicate IsWordChar(c: char) { InName(c) }

  /** `word` stands in `text` and neither neighbour continues it. */
  predicate StandsIn(word: string, text: string) {
    exists i | 0 <= i <= |text| :: StandsAt(word, text, i)
  }

  predicate StandsAt(word: string, text: string, i: nat)
    requires i <= |text|
  {
    && word <= text[i..]
    && (i > 0 ==> !IsWordChar(text[i - 1]))
    && (i + |word| < |text| ==> !IsWordChar(text[i + |word|]))
  }

  predicate MayBeAdvised(spec: Spec) {
    spec.source.Extraction? && spec.source.advisor
  }

  /** The word stands between these texts, and neither continues it. */
  predicate Between(before: string, word: string, after: string, text: string) {
    && text == before + word + after
    && (before != "" ==> !InName(before[|before| - 1])) && (after != "" ==> !InName(after[0]))
  }

  /** What stands in a text stands between what comes before and after it. */
  lemma StandsInExactlyWhen(word: string, text: string)
    ensures StandsIn(word, text) <==> exists before, after :: Between(before, word, after, text)
  {
    hide StandsAt, Between;
    if StandsIn(word, text) {
      var i: nat :| i <= |text| && StandsAt(word, text, i);
      StandsBetween(word, text, i);
    }
    if before, after :| Between(before, word, after, text) {
      BetweenStands(before, word, after, text);
    }
  }

  lemma StandsBetween(word: string, text: string, i: nat)
    requires i <= |text| && StandsAt(word, text, i)
    ensures i + |word| <= |text| && Between(text[..i], word, text[i + |word|..], text)
  {
    hide InName;
  }

  lemma BetweenStands(before: string, word: string, after: string, text: string)
    requires Between(before, word, after, text)
    ensures |before| <= |text| && StandsAt(word, text, |before|)
  {
    hide InName;
    assert text[|before|..] == word + after;
  }

  function AcceptAdvised(e: Engine, spec: Spec, value: Value, incident: Incident): Result<Value> {
    if !MayBeAdvised(spec) then Err
    else if !value.Str? || e.strip(value.s) == "" then Err
    else if !StandsIn(e.strip(value.s), Searched(e, incident, spec.source.fields)) then Err
    else Validate(e, spec, Some(Str(e.strip(value.s))))
  }

  /** Python's `str` of text is the text, and stripping twice is stripping once. */
  ghost predicate Sane(e: Engine) {
    && (forall s :: e.str(Str(s)) == s)
    && (forall s :: e.strip(e.strip(s)) == e.strip(s))
  }

  /** What a model located is taken exactly where the author allows it, the word is in the ticket and it is valid. */
  lemma AdvisedExactlyWhen(e: Engine, spec: Spec, value: Value, incident: Incident)
    ensures AcceptAdvised(e, spec, value, incident).Ok? <==>
              && spec.source.Extraction? && spec.source.advisor
              && value.Str?
              && var word := e.strip(value.s);
                 && word != "" && StandsIn(word, Searched(e, incident, spec.source.fields))
                 && Validate(e, spec, Some(Str(word))).Ok?
  {
    hide StandsIn, Validate, Searched;
  }

  /**
   The model points and does not supply: what it named stands in the ticket, word for word, and the
   value is what that word gives; text stands for itself, an integer is the number the word spells.
   */
  lemma AdvisedTextStandsInTheTicket(e: Engine, spec: Spec, value: Value, incident: Incident)
    requires Sane(e) && AcceptAdvised(e, spec, value, incident).Ok?
    ensures spec.source.Extraction? && spec.source.advisor && value.Str?
    ensures var word, accepted := e.strip(value.s), AcceptAdvised(e, spec, value, incident).value;
            && word != "" && StandsIn(word, Searched(e, incident, spec.source.fields))
            && (if spec.isInteger then accepted.Int? && e.parse(word) == Some(accepted.n) else accepted == Str(word))
            && Validate(e, spec, Some(Str(word))) == Ok(accepted)
  {
  }
}
