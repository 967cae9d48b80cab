/** Which value a routine variable gets: where it comes from, what it is normalized to,
    and why a run is refused. */
module RoutineResolution {
  import opened Common
  import opened RoutineVariables

  // ---------- what a value is normalized to ----------

  /** A text is kept, and a select accepts exactly its options, or anything if it has none. */
  lemma TextIsKept(v: Variable, text: string, lib: Library)
    requires v.kind != "boolean" && v.kind != "number"
    ensures Normalize(v, Str(text), lib)
         == if v.kind == "select" && v.options != [] && text !in v.options then Err(NotAnOption(v.name)) else Ok(Str(text))
    ensures Normalize(v, Null, lib) == Ok(Null)
    ensures v.kind != "select" ==> Normalize(v, Bool(true), lib) == Ok(Str("true")) && Normalize(v, Bool(false), lib) == Ok(Str("false"))
  {
  }

  /** A boolean is itself, or one of ten words in any case and spacing, or 0 or 1. */
  lemma WordsAreBooleans(v: Variable, text: string, lib: Library)
    requires v.kind == "boolean"
    ensures var word, r := lib.lower(TrimSpace(text)), Normalize(v, Str(text), lib);
      && (r == Ok(Bool(true)) <==> word == "true" || word == "1" || word == "yes" || word == "y" || word == "on")
      && (r == Ok(Bool(false)) <==> word == "false" || word == "0" || word == "no" || word == "n" || word == "off")
      && (r.Err? ==> r.error == NotABoolean(v.name))
      && (r.Ok? ==> r.value.Bool?)
    ensures forall b :: Normalize(v, Bool(b), lib) == Ok(Bool(b))
    ensures forall n :: Normalize(v, Int(n), lib) == if n == 0 then Ok(Bool(false)) else if n == 1 then Ok(Bool(true)) else Err(NotABoolean(v.name))
    ensures forall x :: Normalize(v, Float64(Finite(x)), lib) == if x == 0.0 then Ok(Bool(false)) else if x == 1.0 then Ok(Bool(true)) else Err(NotABoolean(v.name))
  {
    var word := lib.lower(TrimSpace(text));
    assert word in {"true", "1", "yes", "y", "on"} ==> word !in {"false", "0", "no", "n", "off"} by {
      assert "true" != "false" && |"1"| == 1 && |"yes"| == 3;
    }
  }

  /** A number is itself, or what a text that is not blank is parsed to. */
  lemma TextsAreNumbers(v: Variable, text: string, lib: Library)
    requires v.kind == "number"
    ensures Normalize(v, Str(text), lib) ==
      (match if IsBlank(text) then None else lib.parseFloat(text) case Some(x) => Ok(Float64(x)) case None => Err(NotANumber(v.name)))
    ensures forall x :: Normalize(v, Float64(x), lib) == Ok(Float64(x))
    ensures forall n :: Normalize(v, Int(n), lib) == Ok(Float64(lib.toFloat(n))) && Normalize(v, Int64(n), lib) == Ok(Float64(lib.toFloat(n)))
    ensures forall b :: Normalize(v, Bool(b), lib) == Err(NotANumber(v.name))
  {
  }

  // ---------- where it comes from ----------

  /** The entry that decides: a given one, else the payload's variable, else a webhook's own field. */
  function Deciding(name: string, source: string, payload: Payload, given: map<string, Value>): Value {
    if name in given then given[name]
    else if payload.None? then Null
    else if "variables" in payload.value && payload.value["variables"].Object? && name in payload.value["variables"].fields
    then payload.value["variables"].fields[name]
    else if source == "webhook" && name != "variables" && name in payload.value then payload.value[name]
    else Null
  }

  lemma CandidateIsDecided(v: Variable, source: string, payload: Payload, given: map<string, Value>)
    ensures Candidate(v, Provided(source, payload, given))
         == if Deciding(v.name, source, payload, given) != Null then Deciding(v.name, source, payload, given) else v.default
  {
  }

  /** The variable came to this raw value, normalized - or to nothing, if that is missing. */
  predicate Becomes(v: Variable, raw: Value, r: map<string, Value>, lib: Library) {
    var n := Normalize(v, raw, lib);
    && n.Ok?
    && (v.name in r <==> !IsMissing(n.value))
    && (v.name in r ==> r[v.name] == n.value)
  }

  lemma IsDecided(
    variables: seq<Variable>, source: string, payload: Payload, given: map<string, Value>, lib: Library, k: nat)
    requires NoDuplicates(VariableNames(variables)) && Resolve(variables, source, payload, given, lib).Ok? && k < |variables|
    ensures var v, raw := variables[k], Deciding(variables[k].name, source, payload, given);
      Becomes(v, if raw != Null then raw else v.default, Resolve(variables, source, payload, given, lib).value, lib)
  {
    var provided := Provided(source, payload, given);
    WalkHolds(variables, provided, lib);
    assert Holds(variables[k], provided, Resolve(variables, source, payload, given, lib).value, lib);
    CandidateIsDecided(variables[k], source, payload, given);
  }

  /** A value that is given decides, and so does one that is given as null: then the default counts. */
  lemma GivenDecides(
    variables: seq<Variable>, source: string, payload: Payload, given: map<string, Value>, lib: Library, k: nat)
    requires NoDuplicates(VariableNames(variables)) && Resolve(variables, source, payload, given, lib).Ok? && k < |variables|
    requires variables[k].name in given
    ensures var v, r := variables[k], Resolve(variables, source, payload, given, lib).value;
      && (given[v.name] != Null ==> Becomes(v, given[v.name], r, lib))
      && (given[v.name] == Null ==> Becomes(v, v.default, r, lib))
  {
    IsDecided(variables, source, payload, given, lib, k);
  }

  /** Without a given entry the payload's variables decide. */
  lemma PayloadDecides(
    variables: seq<Variable>, source: string, payload: map<string, Value>, fields: map<string, Value>,
    given: map<string, Value>, lib: Library, k: nat)
    requires NoDuplicates(VariableNames(variables)) && Resolve(variables, source, Some(payload), given, lib).Ok? && k < |variables|
    requires variables[k].name !in given
    requires "variables" in payload && payload["variables"] == Object(fields) && variables[k].name in fields
    ensures var v, r := variables[k], Resolve(variables, source, Some(payload), given, lib).value;
      && (fields[v.name] != Null ==> Becomes(v, fields[v.name], r, lib))
      && (fields[v.name] == Null ==> Becomes(v, v.default, r, lib))
  {
    IsDecided(variables, source, Some(payload), given, lib, k);
  }

  /** Without either a webhook's own field decides, for a webhook only, and otherwise the default counts. */
  lemma FieldOrDefaultDecides(
    variables: seq<Variable>, source: string, payload: Payload, given: map<string, Value>, lib: Library, k: nat)
    requires NoDuplicates(VariableNames(variables)) && Resolve(variables, source, payload, given, lib).Ok? && k < |variables|
    requires variables[k].name !in given
    requires payload.Some? && "variables" in payload.value && payload.value["variables"].Object? ==>
      variables[k].name !in payload.value["variables"].fields
    ensures var v, r := variables[k], Resolve(variables, source, payload, given, lib).value;
      if source == "webhook" && v.name != "variables" && payload.Some? && v.name in payload.value && payload.value[v.name] != Null
      then Becomes(v, payload.value[v.name], r, lib)
      else Becomes(v, v.default, r, lib)
  {
    IsDecided(variables, source, payload, given, lib, k);
  }

  /** Nothing else is resolved. */
  lemma OnlyVariablesAreResolved(
    variables: seq<Variable>, source: string, payload: Payload, given: map<string, Value>, lib: Library)
    requires NoDuplicates(VariableNames(variables)) && Resolve(variables, source, payload, given, lib).Ok?
    ensures forall name :: name in Resolve(variables, source, payload, given, lib).value ==> name in VariableNames(variables)
  {
    WalkHolds(variables, Provided(source, payload, given), lib);
  }

  // ---------- why a run is refused ----------

  /** What the variable's deciding entry, or its default, is normalized to. */
  function Outcome(v: Variable, source: string, payload: Payload, given: map<string, Value>, lib: Library): Result<Value, Failure> {
    var raw := Deciding(v.name, source, payload, given);
    Normalize(v, if raw != Null then raw else v.default, lib)
  }

  lemma OutcomeIsNormalized(v: Variable, source: string, payload: Payload, given: map<string, Value>, lib: Library)
    ensures NormalizedCandidate(v, Provided(source, payload, given), lib) == Outcome(v, source, payload, given, lib)
  {
    CandidateIsDecided(v, source, payload, given);
  }

  /** The variables that have to be there and are not, in order. */
  function Absent(variables: seq<Variable>, source: string, payload: Payload, given: map<string, Value>, lib: Library): seq<string> {
    if variables == [] then []
    else
      var v := variables[|variables| - 1];
      var n := Outcome(v, source, payload, given, lib);
      Absent(variables[..|variables| - 1], source, payload, given, lib)
      + (if v.required && n.Ok? && IsMissing(n.value) then [v.name] else [])
  }

  predicate AllAcceptable(variables: seq<Variable>, source: string, payload: Payload, given: map<string, Value>, lib: Library) {
    forall v :: v in variables ==> Outcome(v, source, payload, given, lib).Ok?
  }

  /** The first value that is not acceptable is refused for this reason. */
  predicate FirstFails(
    variables: seq<Variable>, source: string, payload: Payload, given: map<string, Value>, lib: Library, e: Failure)
  {
    exists k :: 0 <= k < |variables| && Outcome(variables[k], source, payload, given, lib) == Err(e)
      && AllAcceptable(variables[..k], source, payload, given, lib)
  }

  lemma StillFirstFails(
    init: seq<Variable>, last: Variable, source: string, payload: Payload, given: map<string, Value>, lib: Library, e: Failure)
    requires FirstFails(init, source, payload, given, lib, e)
    ensures FirstFails(init + [last], source, payload, given, lib, e)
  {
    var k :| 0 <= k < |init| && Outcome(init[k], source, payload, given, lib) == Err(e)
      && AllAcceptable(init[..k], source, payload, given, lib);
    assert (init + [last])[..k] == init[..k] && (init + [last])[k] == init[k];
  }

  lemma LastFails(
    init: seq<Variable>, last: Variable, source: string, payload: Payload, given: map<string, Value>, lib: Library, e: Failure)
    requires AllAcceptable(init, source, payload, given, lib) && Outcome(last, source, payload, given, lib) == Err(e)
    ensures FirstFails(init + [last], source, payload, given, lib, e)
  {
    assert (init + [last])[..|init|] == init && (init + [last])[|init|] == last;
  }

  /** Resolving goes on exactly while every value is acceptable, and then it has noted the absent ones. */
  lemma {:induction false} WalkNotes(
    variables: seq<Variable>, source: string, payload: Payload, given: map<string, Value>, lib: Library)
    ensures var p := Walk(variables, Provided(source, payload, given), lib);
      && (p.Ok? ==> AllAcceptable(variables, source, payload, given, lib)
                    && p.value.missing == Absent(variables, source, payload, given, lib))
      && (p.Err? ==> FirstFails(variables, source, payload, given, lib, p.error))
  {
    if variables != [] {
      var init, last := variables[..|variables| - 1], variables[|variables| - 1];
      assert variables == init + [last];
      WalkNotes(init, source, payload, given, lib);
      OutcomeIsNormalized(last, source, payload, given, lib);
      var p := Walk(init, Provided(source, payload, given), lib);
      if p.Err? {
        StillFirstFails(init, last, source, payload, given, lib, p.error);
      } else if Outcome(last, source, payload, given, lib).Err? {
        LastFails(init, last, source, payload, given, lib, Outcome(last, source, payload, given, lib).error);
      }
    }
  }

  /** A refusal names the first value that is not acceptable, or else, all of them in order, the
      required variables that have none. */
  lemma RefusalIsTrue(
    variables: seq<Variable>, source: string, payload: Payload, given: map<string, Value>, lib: Library)
    requires Resolve(variables, source, payload, given, lib).Err?
    ensures var e, absent := Resolve(variables, source, payload, given, lib).error, Absent(variables, source, payload, given, lib);
      || FirstFails(variables, source, payload, given, lib, e)
      || (AllAcceptable(variables, source, payload, given, lib) && e == Missing(absent) && absent != [])
  {
    WalkNotes(variables, source, payload, given, lib);
  }

  // ---------- the stored payload ----------

  /** Everything of the payload is kept but its variables, and there the resolved values come on top. */
  lemma MergedPayload(payload: Payload, r: map<string, Value>)
    requires r != map[]
    ensures var merged := Merge(payload, r);
      && merged.Some? && "variables" in merged.value && merged.value["variables"].Object?
      && (forall name :: name in r ==> name in merged.value["variables"].fields && merged.value["variables"].fields[name] == r[name])
      && (payload.Some? ==> forall key :: key != "variables" ==>
            (key in merged.value <==> key in payload.value) && (key in payload.value ==> merged.value[key] == payload.value[key]))
      && (payload.None? ==> merged.value.Keys == {"variables"})
    ensures Merge(payload, map[]) == payload
  {
  }

  // ---------- templates ----------

  /** A text stays, a hole takes its value - a text as it is, a truth value in words, nothing for
      null - and a hole without a value stays as it was written. */
  lemma PieceShows(text: string, raw: string, name: string, values: map<string, Value>, lib: Library)
    ensures Interpolate([Text(text)], values, lib) == text
    ensures name !in values ==> Interpolate([Hole(raw, name)], values, lib) == raw
    ensures name in values ==>
      var shown := Interpolate([Hole(raw, name)], values, lib);
      match values[name]
      case Null => shown == ""
      case Str(s) => shown == s
      case Bool(b) => shown == if b then "true" else "false"
      case _ => shown == lib.render(values[name])
  {
    assert [Text(text)][1..] == [] && [Hole(raw, name)][1..] == [];
  }

  /** And so piece by piece. */
  lemma {:induction false} PiecesShowInOrder(a: seq<Piece>, b: seq<Piece>, values: map<string, Value>, lib: Library)
    ensures Interpolate(a + b, values, lib) == Interpolate(a, values, lib) + Interpolate(b, values, lib)
  {
    if a == [] {
      assert a + b == b;
    } else {
      assert (a + b)[1..] == a[1..] + b;
      PiecesShowInOrder(a[1..], b, values, lib);
    }
  }
}
