/** Routine template variables: the names a template mentions, the definitions kept
    for them, the values a run resolves, and the payload those are stored in. */
module RoutineVariables {
  import opened Common

  datatype Float = Finite(value: real) | Infinite(negative: bool) | NaN

  /** What an interface{} holds here; Other stands for anything else that JSON can carry. */
  datatype Value =
    | Null
    | Str(text: string)
    | Bool(truth: bool)
    | Float64(number: Float)
    | Int(int)
    | Int64(int)
    | Object(fields: map<string, Value>)
    | Other(id: int)

  /** Library conversions: number and JSON rendering, strconv.ParseFloat, int to float64, strings.ToLower. */
  datatype Library = Library(
    render: Value -> string, parseFloat: string -> Option<Float>, toFloat: int -> Float, lower: string -> string)

  datatype Variable = Variable(name: string, kind: string, default: Value, required: bool, options: seq<string>)

  datatype Failure =
    | NotABoolean(name: string)
    | NotANumber(name: string)
    | NotAnOption(name: string)
    | Missing(names: seq<string>)

  // ---------- names in templates ----------

  /** A template as the placeholder expression divides it. */
  datatype Piece = Text(text: string) | Hole(raw: string, name: string)

  function Names(pieces: seq<Piece>): seq<string> {
    if pieces == [] then []
    else Names(pieces[..|pieces| - 1]) + NameOf(pieces[|pieces| - 1])
  }

  function NameOf(piece: Piece): seq<string> {
    if piece.Hole? then [piece.name] else []
  }

  function AllNames(templates: seq<seq<Piece>>): seq<string> {
    if templates == [] then [] else AllNames(templates[..|templates| - 1]) + Names(templates[|templates| - 1])
  }

  /** Each element once, where it first occurs. */
  function FirstOccurrences(xs: seq<string>): (r: seq<string>)
    ensures NoDuplicates(r) && forall x :: x in r <==> x in xs
  {
    if xs == [] then [] else
    var r, last := FirstOccurrences(xs[..|xs| - 1]), xs[|xs| - 1];
    assert xs == xs[..|xs| - 1] + [last];
    if last in r then r else r + [last]
  }

  method ExtractNames(templates: seq<seq<Piece>>) returns (names: seq<string>)
    ensures names == FirstOccurrences(AllNames(templates))
  {
    var found: set<string> := {};
    names := [];
    for t := 0 to |templates|
      invariant names == FirstOccurrences(AllNames(templates[..t]))
      invariant forall name :: name in found <==> name in names
    {
      var pieces := templates[t];
      ghost var before := AllNames(templates[..t]);
      TemplateGrows(templates, t);
      assert before + Names(pieces[..0]) == before;
      for p := 0 to |pieces|
        invariant names == FirstOccurrences(before + Names(pieces[..p]))
        invariant forall name :: name in found <==> name in names
      {
        PieceGrows(before, pieces, p);
        if pieces[p].Hole? {
          var name := pieces[p].name;
          if name !in found {
            found := found + {name};
            names := names + [name];
          }
        }
      }
      assert pieces[..|pieces|] == pieces;
    }
    assert templates[..|templates|] == templates;
  }

  lemma TemplateGrows(templates: seq<seq<Piece>>, t: nat)
    requires t < |templates|
    ensures AllNames(templates[..t + 1]) == AllNames(templates[..t]) + Names(templates[t])
  {
    assert templates[..t + 1][..t] == templates[..t];
  }

  lemma PieceGrows(before: seq<string>, pieces: seq<Piece>, p: nat)
    requires p < |pieces|
    ensures var names := FirstOccurrences(before + Names(pieces[..p]));
      FirstOccurrences(before + Names(pieces[..p + 1]))
        == if pieces[p].Hole? && pieces[p].name !in names then names + [pieces[p].name] else names
  {
    var mentioned := before + Names(pieces[..p]);
    assert pieces[..p + 1][..p] == pieces[..p];
    assert before + Names(pieces[..p + 1]) == mentioned + NameOf(pieces[p]);
    if pieces[p].Hole? {
      OccurrencesGrow(mentioned, pieces[p].name);
    } else {
      assert mentioned + [] == mentioned;
    }
  }

  lemma OccurrencesGrow(xs: seq<string>, x: string)
    ensures FirstOccurrences(xs + [x])
        == if x in xs then FirstOccurrences(xs) else FirstOccurrences(xs) + [x]
  {
    assert (xs + [x])[..|xs|] == xs;
  }

  // ---------- interpolation ----------

  function Stringify(v: Value, lib: Library): string {
    match v
    case Null => ""
    case Str(text) => text
    case Bool(truth) => if truth then "true" else "false"
    case _ => lib.render(v)
  }

  function Source(pieces: seq<Piece>): string {
    if pieces == [] then "" else
    (match pieces[0] case Text(text) => text case Hole(raw, _) => raw) + Source(pieces[1..])
  }

  function Interpolate(pieces: seq<Piece>, values: map<string, Value>, lib: Library): string {
    if pieces == [] then "" else
    (match pieces[0]
     case Text(text) => text
     case Hole(raw, name) => if name in values then Stringify(values[name], lib) else raw)
    + Interpolate(pieces[1..], values, lib)
  }

  lemma {:induction false} NamesFromFront(pieces: seq<Piece>)
    requires pieces != []
    ensures Names(pieces) == Names(pieces[..1]) + Names(pieces[1..])
  {
    var n := |pieces| - 1;
    if n > 0 {
      NamesFromFront(pieces[..n]);
      assert pieces[..n][..1] == pieces[..1] && pieces[..n][1..] == pieces[1..][..n - 1];
    } else {
      assert pieces[..1] == pieces;
    }
  }

  /** Only the values of mentioned names matter, and where none has a value the template stays as it was. */
  lemma {:induction false} OnlyMentionedNamesMatter(
    pieces: seq<Piece>, values: map<string, Value>, values': map<string, Value>, lib: Library)
    requires forall name :: name in Names(pieces) ==>
      (name in values <==> name in values') && (name in values ==> values[name] == values'[name])
    ensures Interpolate(pieces, values, lib) == Interpolate(pieces, values', lib)
    ensures (forall name :: name in Names(pieces) ==> name !in values) ==>
      Interpolate(pieces, values, lib) == Source(pieces)
  {
    if pieces != [] {
      NamesFromFront(pieces);
      assert pieces[..1][..0] == [];
      assert pieces[0].Hole? ==> Names(pieces[..1]) == [pieces[0].name];
      OnlyMentionedNamesMatter(pieces[1..], values, values', lib);
    }
  }

  // ---------- definitions ----------

  predicate IsBuiltin(name: string) {
    name == "date"
  }

  function WithoutBuiltins(names: seq<string>): (r: seq<string>)
    ensures forall x :: x in r <==> x in names && !IsBuiltin(x)
  {
    if names == [] then [] else
    var r, last := WithoutBuiltins(names[..|names| - 1]), names[|names| - 1];
    assert names == names[..|names| - 1] + [last];
    if IsBuiltin(last) then r else r + [last]
  }

  /** The last definition under a name, or the default one. */
  function Definition(name: string, existing: seq<Variable>): (v: Variable)
    ensures v.name == name
  {
    if existing == [] then Variable(name, "text", Null, true, [])
    else if existing[|existing| - 1].name == name then existing[|existing| - 1]
    else Definition(name, existing[..|existing| - 1])
  }

  function Definitions(names: seq<string>, existing: seq<Variable>): (r: seq<Variable>)
    ensures |r| == |names| && forall k :: 0 <= k < |r| ==> r[k] == Definition(names[k], existing)
  {
    seq(|names|, k requires 0 <= k < |names| => Definition(names[k], existing))
  }

  function SyncSpec(templates: seq<seq<Piece>>, existing: seq<Variable>): seq<Variable> {
    Definitions(WithoutBuiltins(FirstOccurrences(AllNames(templates))), existing)
  }

  ghost predicate IsIndex(byName: map<string, Variable>, existing: seq<Variable>) {
    && (forall v :: v in existing ==> v.name in byName)
    && (forall name :: name in byName ==> byName[name] == Definition(name, existing))
  }

  lemma IndexGrows(byName: map<string, Variable>, existing: seq<Variable>, v: Variable)
    requires IsIndex(byName, existing)
    ensures IsIndex(byName[v.name := v], existing + [v])
  {
    var more := existing + [v];
    assert more[..|existing|] == existing;
  }

  lemma {:induction false} UnknownGetsDefault(name: string, existing: seq<Variable>)
    requires forall v :: v in existing ==> v.name != name
    ensures Definition(name, existing) == Variable(name, "text", Null, true, [])
  {
    if existing != [] {
      UnknownGetsDefault(name, existing[..|existing| - 1]);
    }
  }

  lemma DefinitionsGrow(names: seq<string>, i: nat, existing: seq<Variable>)
    requires i < |names|
    ensures Definitions(names[..i + 1], existing) == Definitions(names[..i], existing) + [Definition(names[i], existing)]
  {
  }

  method FilterBuiltins(names: seq<string>) returns (filtered: seq<string>)
    ensures filtered == WithoutBuiltins(names)
  {
    filtered := [];
    for i := 0 to |names|
      invariant filtered == WithoutBuiltins(names[..i])
    {
      assert names[..i + 1][..i] == names[..i];
      if !IsBuiltin(names[i]) {
        filtered := filtered + [names[i]];
      }
    }
    assert names[..|names|] == names;
  }

  method IndexByName(existing: seq<Variable>) returns (byName: map<string, Variable>)
    ensures IsIndex(byName, existing)
  {
    byName := map[];
    for i := 0 to |existing|
      invariant IsIndex(byName, existing[..i])
    {
      IndexGrows(byName, existing[..i], existing[i]);
      assert existing[..i] + [existing[i]] == existing[..i + 1];
      byName := byName[existing[i].name := existing[i]];
    }
    assert existing[..|existing|] == existing;
  }

  method SyncWithTemplate(templates: seq<seq<Piece>>, existing: seq<Variable>) returns (r: seq<Variable>)
    ensures r == SyncSpec(templates, existing)
  {
    var names := ExtractNames(templates);
    var filtered := FilterBuiltins(names);
    var byName := IndexByName(existing);
    r := [];
    for i := 0 to |filtered|
      invariant r == Definitions(filtered[..i], existing)
    {
      DefinitionsGrow(filtered, i, existing);
      if filtered[i] in byName {
        r := r + [byName[filtered[i]]];
      } else {
        UnknownGetsDefault(filtered[i], existing);
        r := r + [Variable(filtered[i], "text", Null, true, [])];
      }
    }
    assert filtered[..|filtered|] == filtered;
  }

  function VariableNames(variables: seq<Variable>): (names: seq<string>)
    ensures |names| == |variables| && forall k :: 0 <= k < |names| ==> names[k] == variables[k].name
  {
    seq(|variables|, k requires 0 <= k < |variables| => variables[k].name)
  }

  lemma {:induction false} FilteringKeepsDistinct(names: seq<string>)
    requires NoDuplicates(names)
    ensures NoDuplicates(WithoutBuiltins(names))
  {
    if names != [] {
      var n := |names| - 1;
      FilteringKeepsDistinct(names[..n]);
      assert names[n] !in names[..n];
    }
  }

  /** After a sync there is one definition for every mentioned name that is not built in, in order of first mention. */
  lemma SyncedNames(templates: seq<seq<Piece>>, existing: seq<Variable>)
    ensures var names := VariableNames(SyncSpec(templates, existing));
      NoDuplicates(names) && forall x :: x in names <==> x in AllNames(templates) && !IsBuiltin(x)
  {
    var wanted := WithoutBuiltins(FirstOccurrences(AllNames(templates)));
    FilteringKeepsDistinct(FirstOccurrences(AllNames(templates)));
    assert VariableNames(SyncSpec(templates, existing)) == wanted;
  }

  lemma {:induction false} DefinitionIsFound(variables: seq<Variable>, k: nat)
    requires k < |variables| && NoDuplicates(VariableNames(variables))
    ensures Definition(variables[k].name, variables) == variables[k]
  {
    var n := |variables| - 1;
    if k < n {
      assert VariableNames(variables)[k] != VariableNames(variables)[n];
      assert VariableNames(variables[..n]) == VariableNames(variables)[..n];
      DefinitionIsFound(variables[..n], k);
    }
  }

  /** Syncing again changes nothing. */
  lemma SyncTwice(templates: seq<seq<Piece>>, existing: seq<Variable>)
    ensures SyncSpec(templates, SyncSpec(templates, existing)) == SyncSpec(templates, existing)
  {
    var once := SyncSpec(templates, existing);
    SyncedNames(templates, existing);
    forall k | 0 <= k < |once| ensures Definition(once[k].name, once) == once[k] {
      DefinitionIsFound(once, k);
    }
  }

  // ---------- values ----------

  function ParseBoolean(name: string, raw: Value, lib: Library): Result<bool, Failure> {
    match raw
    case Bool(truth) => Ok(truth)
    case Float64(Finite(x)) => if x == 0.0 || x == 1.0 then Ok(x == 1.0) else Err(NotABoolean(name))
    case Int(n) => if n == 0 || n == 1 then Ok(n == 1) else Err(NotABoolean(name))
    case Str(text) =>
      var word := lib.lower(TrimSpace(text));
      if word in {"true", "1", "yes", "y", "on"} then Ok(true)
      else if word in {"false", "0", "no", "n", "off"} then Ok(false)
      else Err(NotABoolean(name))
    case _ => Err(NotABoolean(name))
  }

  function ParseNumber(name: string, raw: Value, lib: Library): Result<Float, Failure> {
    match raw
    case Float64(x) => Ok(x)
    case Int(n) => Ok(lib.toFloat(n))
    case Int64(n) => Ok(lib.toFloat(n))
    case Str(text) =>
      if IsBlank(text) then Err(NotANumber(name))
      else (match lib.parseFloat(text) case Some(x) => Ok(x) case None => Err(NotANumber(name)))
    case _ => Err(NotANumber(name))
  }

  function Normalize(v: Variable, raw: Value, lib: Library): Result<Value, Failure> {
    if raw == Null then Ok(Null)
    else if v.kind == "boolean" then
      (match ParseBoolean(v.name, raw, lib) case Ok(b) => Ok(Bool(b)) case Err(e) => Err(e))
    else if v.kind == "number" then
      (match ParseNumber(v.name, raw, lib) case Ok(x) => Ok(Float64(x)) case Err(e) => Err(e))
    else
      var text := Stringify(raw, lib);
      if v.kind == "select" && v.options != [] && text !in v.options then Err(NotAnOption(v.name)) else Ok(Str(text))
  }

  predicate IsMissing(value: Value) {
    value == Null || (value.Str? && IsBlank(value.text))
  }

  /** Normalizing is a projection: a normalized value is what it normalizes to. */
  lemma NormalizeTwice(v: Variable, raw: Value, lib: Library)
    ensures Normalize(v, raw, lib).Ok? ==> Normalize(v, Normalize(v, raw, lib).value, lib) == Normalize(v, raw, lib)
  {
  }

  // ---------- resolving ----------

  type Payload = Option<map<string, Value>>

  function Nested(payload: Payload): map<string, Value> {
    if payload.Some? && "variables" in payload.value && payload.value["variables"].Object?
    then payload.value["variables"].fields else map[]
  }

  /** Top-level webhook fields, overlaid by the payload's variables, overlaid by the given ones. */
  function Provided(source: string, payload: Payload, given: map<string, Value>): map<string, Value> {
    (if source == "webhook" && payload.Some? then payload.value - {"variables"} else map[]) + Nested(payload) + given
  }

  function Candidate(v: Variable, provided: map<string, Value>): Value {
    if v.name in provided && provided[v.name] != Null then provided[v.name] else v.default
  }

  function NormalizedCandidate(v: Variable, provided: map<string, Value>, lib: Library): Result<Value, Failure> {
    Normalize(v, Candidate(v, provided), lib)
  }

  datatype Progress = Progress(resolved: map<string, Value>, missing: seq<string>)

  function ResolveOne(v: Variable, value: Value, p: Progress): Progress {
    if !IsMissing(value) then p.(resolved := p.resolved[v.name := value])
    else if v.required then p.(missing := p.missing + [v.name])
    else p
  }

  function Walk(variables: seq<Variable>, provided: map<string, Value>, lib: Library): Result<Progress, Failure> {
    if variables == [] then Ok(Progress(map[], [])) else
    var n := |variables| - 1;
    match Walk(variables[..n], provided, lib)
    case Err(e) => Err(e)
    case Ok(p) =>
      match NormalizedCandidate(variables[n], provided, lib)
      case Err(e) => Err(e)
      case Ok(value) => Ok(ResolveOne(variables[n], value, p))
  }

  function Resolve(variables: seq<Variable>, source: string, payload: Payload, given: map<string, Value>, lib: Library)
    : Result<map<string, Value>, Failure>
  {
    match Walk(variables, Provided(source, payload, given), lib)
    case Err(e) => Err(e)
    case Ok(p) => if p.missing != [] then Err(Missing(p.missing)) else Ok(p.resolved)
  }

  lemma {:induction false} WalkStops(variables: seq<Variable>, i: nat, provided: map<string, Value>, lib: Library)
    requires i <= |variables| && Walk(variables[..i], provided, lib).Err?
    ensures Walk(variables, provided, lib) == Walk(variables[..i], provided, lib)
    decreases |variables|
  {
    if i == |variables| {
      assert variables[..i] == variables;
    } else {
      var n := |variables| - 1;
      assert variables[..n][..i] == variables[..i];
      WalkStops(variables[..n], i, provided, lib);
    }
  }

  method ResolveValues(
    variables: seq<Variable>, source: string, payload: Payload, given: map<string, Value>, lib: Library)
    returns (r: Result<map<string, Value>, Failure>)
    ensures r == Resolve(variables, source, payload, given, lib)
  {
    if variables == [] {
      return Ok(map[]);
    }
    var provided := Provided(source, payload, given);
    var resolved: map<string, Value>, missing: seq<string> := map[], [];
    for i := 0 to |variables|
      invariant Walk(variables[..i], provided, lib) == Ok(Progress(resolved, missing))
    {
      assert variables[..i + 1][..i] == variables[..i];
      var v := variables[i];
      var candidate := if v.name in provided then provided[v.name] else Null;
      if candidate == Null {
        candidate := v.default;
      }
      var normalized := Normalize(v, candidate, lib);
      if normalized.Err? {
        WalkStops(variables, i + 1, provided, lib);
        return Err(normalized.error);
      }
      if IsMissing(normalized.value) {
        if v.required {
          missing := missing + [v.name];
        }
      } else {
        resolved := resolved[v.name := normalized.value];
      }
    }
    assert variables[..|variables|] == variables;
    if missing != [] {
      return Err(Missing(missing));
    }
    return Ok(resolved);
  }

  /** A variable whose value is acceptable, and there if it has to be. */
  predicate Satisfied(v: Variable, provided: map<string, Value>, lib: Library) {
    var n := NormalizedCandidate(v, provided, lib);
    n.Ok? && (v.required ==> !IsMissing(n.value))
  }

  lemma {:induction false} WalkSatisfies(variables: seq<Variable>, provided: map<string, Value>, lib: Library)
    ensures Walk(variables, provided, lib).Ok? && Walk(variables, provided, lib).value.missing == []
      <==> forall k :: 0 <= k < |variables| ==> Satisfied(variables[k], provided, lib)
  {
    if variables != [] {
      var n := |variables| - 1;
      WalkSatisfies(variables[..n], provided, lib);
      assert forall k :: 0 <= k < n ==> variables[..n][k] == variables[k];
    }
  }

  /** A run gets its variables exactly when each of them is satisfied. */
  lemma ResolvesIff(
    variables: seq<Variable>, source: string, payload: Payload, given: map<string, Value>, lib: Library)
    ensures Resolve(variables, source, payload, given, lib).Ok?
      <==> forall k :: 0 <= k < |variables| ==> Satisfied(variables[k], Provided(source, payload, given), lib)
  {
    WalkSatisfies(variables, Provided(source, payload, given), lib);
  }

  /** The payload that is stored with the run. */
  function Merge(payload: Payload, variables: map<string, Value>): Payload {
    if variables == map[] then payload
    else if payload.None? then Some(map["variables" := Object(variables)])
    else Some(payload.value["variables" := Object(Nested(payload) + variables)])
  }

  // ---------- resolving again from the stored payload ----------

  /** What each variable came to. */
  ghost predicate Holds(v: Variable, provided: map<string, Value>, r: map<string, Value>, lib: Library) {
    var n := NormalizedCandidate(v, provided, lib);
    && n.Ok?
    && (v.name in r <==> !IsMissing(n.value))
    && (v.name in r ==> r[v.name] == n.value)
  }

  lemma ResolveOneKeepsOthers(v: Variable, value: Value, p: Progress, w: Variable, provided: map<string, Value>, lib: Library)
    requires w.name != v.name && Holds(w, provided, p.resolved, lib)
    ensures Holds(w, provided, ResolveOne(v, value, p).resolved, lib)
  {
  }

  lemma {:induction false} WalkHolds(variables: seq<Variable>, provided: map<string, Value>, lib: Library)
    requires NoDuplicates(VariableNames(variables)) && Walk(variables, provided, lib).Ok?
    ensures forall k :: 0 <= k < |variables| ==>
      Holds(variables[k], provided, Walk(variables, provided, lib).value.resolved, lib)
    ensures Walk(variables, provided, lib).value.resolved.Keys <= set name | name in VariableNames(variables)
  {
    if variables != [] {
      var n := |variables| - 1;
      var names := VariableNames(variables);
      assert VariableNames(variables[..n]) == names[..n];
      WalkHolds(variables[..n], provided, lib);
      var before := Walk(variables[..n], provided, lib).value;
      var value := NormalizedCandidate(variables[n], provided, lib).value;
      forall k | 0 <= k < n ensures Holds(variables[k], provided, ResolveOne(variables[n], value, before).resolved, lib) {
        assert names[k] != names[n];
        assert variables[..n][k] == variables[k];
        ResolveOneKeepsOthers(variables[n], value, before, variables[k], provided, lib);
      }
      assert variables[n].name !in before.resolved by {
        assert variables[n].name !in names[..n];
      }
      assert names[n] == variables[n].name;
      assert Walk(variables, provided, lib) == Ok(ResolveOne(variables[n], value, before));
    }
  }

  lemma {:induction false} WalkAgrees(
    variables: seq<Variable>, provided: map<string, Value>, provided': map<string, Value>, lib: Library)
    requires forall v :: v in variables ==> NormalizedCandidate(v, provided, lib) == NormalizedCandidate(v, provided', lib)
    ensures Walk(variables, provided, lib) == Walk(variables, provided', lib)
  {
    if variables != [] {
      WalkAgrees(variables[..|variables| - 1], provided, provided', lib);
    }
  }

  /** What the stored payload provides is what the first one did, except that resolved values
      stand where nothing was given separately. */
  lemma StoredProvides(
    source: string, payload: Payload, given: map<string, Value>, r: map<string, Value>, name: string)
    ensures var first, again := Provided(source, payload, given), Provided(source, Merge(payload, r), given);
      if name !in given && name in r then name in again && again[name] == r[name]
      else (name in again <==> name in first) && (name in first ==> again[name] == first[name])
  {
  }

  lemma StoredNormalizesTheSame(
    v: Variable, source: string, payload: Payload, given: map<string, Value>, r: map<string, Value>, lib: Library)
    requires Holds(v, Provided(source, payload, given), r, lib)
    ensures NormalizedCandidate(v, Provided(source, Merge(payload, r), given), lib)
        == NormalizedCandidate(v, Provided(source, payload, given), lib)
  {
    StoredProvides(source, payload, given, r, v.name);
    NormalizeTwice(v, Candidate(v, Provided(source, payload, given)), lib);
  }

  /** Resolving again from the stored payload gives the same values. */
  lemma ResolveTwice(
    variables: seq<Variable>, source: string, payload: Payload, given: map<string, Value>, lib: Library)
    requires NoDuplicates(VariableNames(variables)) && Resolve(variables, source, payload, given, lib).Ok?
    ensures var r := Resolve(variables, source, payload, given, lib).value;
      Resolve(variables, source, Merge(payload, r), given, lib) == Ok(r)
  {
    var provided := Provided(source, payload, given);
    var r := Resolve(variables, source, payload, given, lib).value;
    WalkHolds(variables, provided, lib);
    forall v | v in variables
      ensures NormalizedCandidate(v, provided, lib)
          == NormalizedCandidate(v, Provided(source, Merge(payload, r), given), lib)
    {
      var k :| 0 <= k < |variables| && variables[k] == v;
      assert Holds(variables[k], provided, r, lib);
      StoredNormalizesTheSame(v, source, payload, given, r, lib);
    }
    WalkAgrees(variables, provided, Provided(source, Merge(payload, r), given), lib);
  }

  /** So it does for every set of variables that a sync produced. */
  lemma SyncedResolveTwice(
    templates: seq<seq<Piece>>, existing: seq<Variable>, source: string, payload: Payload,
    given: map<string, Value>, lib: Library)
    requires Resolve(SyncSpec(templates, existing), source, payload, given, lib).Ok?
    ensures var variables := SyncSpec(templates, existing);
      var r := Resolve(variables, source, payload, given, lib).value;
      Resolve(variables, source, Merge(payload, r), given, lib) == Ok(r)
  {
    SyncedNames(templates, existing);
    ResolveTwice(SyncSpec(templates, existing), source, payload, given, lib);
  }

  const NUMBER := Variable("n", "number", Null, true, [])
  const BOOLEAN := Variable("n", "boolean", Null, true, [])

  lemma NumberAndBooleanOf1(provided: map<string, Value>, lib: Library)
    requires lib.parseFloat("1") == Some(Finite(1.0)) && lib.lower("1") == "1"
    requires "n" in provided && provided["n"] == Str("1")
    ensures Walk([NUMBER, BOOLEAN], provided, lib) == Ok(Progress(map["n" := Bool(true)], []))
  {
    assert TrimSpace("1") == "1";
    assert NormalizedCandidate(NUMBER, provided, lib) == Ok(Float64(Finite(1.0)));
    assert NormalizedCandidate(BOOLEAN, provided, lib) == Ok(Bool(true));
    assert [NUMBER, BOOLEAN][..1] == [NUMBER] && [NUMBER][..0] == [];
    var p := Progress(map["n" := Float64(Finite(1.0))], []);
    assert Walk([], provided, lib) == Ok(Progress(map[], []));
    assert Walk([NUMBER], provided, lib) == Ok(p);
    assert p.resolved["n" := Bool(true)] == map["n" := Bool(true)];
  }

  lemma NumberOfTrue(provided: map<string, Value>, lib: Library)
    requires "n" in provided && provided["n"] == Bool(true)
    ensures Walk([NUMBER, BOOLEAN], provided, lib) == Err(NotANumber("n"))
  {
    assert [NUMBER, BOOLEAN][..1] == [NUMBER] && [NUMBER][..0] == [];
    assert Walk([], provided, lib) == Ok(Progress(map[], []));
    assert Walk([NUMBER], provided, lib) == Err(NotANumber("n"));
  }

  /** The names have to be distinct: a number and a boolean under one name resolve once, but not again. */
  lemma SharedNamesDoNotResolveTwice(lib: Library)
    requires lib.parseFloat("1") == Some(Finite(1.0)) && lib.lower("1") == "1"
    ensures var payload := Some(map["variables" := Object(map["n" := Str("1")])]);
      var r := map["n" := Bool(true)];
      && Resolve([NUMBER, BOOLEAN], "manual", payload, map[], lib) == Ok(r)
      && Resolve([NUMBER, BOOLEAN], "manual", Merge(payload, r), map[], lib) == Err(NotANumber("n"))
  {
    var payload := Some(map["variables" := Object(map["n" := Str("1")])]);
    var r := map["n" := Bool(true)];
    NumberAndBooleanOf1(Provided("manual", payload, map[]), lib);
    StoredProvides("manual", payload, map[], r, "n");
    NumberOfTrue(Provided("manual", Merge(payload, r), map[]), lib);
  }
}
