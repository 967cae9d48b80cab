/** What a sanitized record still shows.  Exposure is a matter of paths alone: a value
    under a secret-named key, or a token. */
module RedactionExposure {
  import opened Common
  import opened Redaction

  datatype Step = Key(name: string) | Item(index: nat)

  type Path = seq<Step>

  function Child(v: Value, step: Step): Option<Value> {
    match step
    case Key(name) => if v.Record? && name in v.fields then Some(v.fields[name]) else None
    case Item(i) => if v.Array? && i < |v.items| then Some(v.items[i]) else None
  }

  function At(v: Value, p: Path): Option<Value> {
    if p == [] then Some(v)
    else
      var child := Child(v, p[0]);
      if child.None? then None else At(child.value, p[1..])
  }

  // ---------- exposure ----------

  predicate IsSecretStep(step: Step) {
    step.Key? && IsSecretKey(step.name)
  }

  predicate IsRedacted(v: Value) {
    v == Str(REDACTED) || v == Plain(Str(REDACTED))
  }

  /** A secret-named key holds something other than a mark or a binding of it. */
  predicate SecretExposed(v: Value, p: Path) {
    p != [] && IsSecretStep(p[|p| - 1]) && At(v, p).Some? && !IsRedacted(At(v, p).value)
  }

  predicate TokenExposed(v: Value, p: Path) {
    At(v, p).Some? && At(v, p).value.Str? && LooksLikeJwt(At(v, p).value.s)
  }

  predicate RefAt(v: Value, p: Path, k: nat)
    requires k <= |p|
  {
    At(v, p[..k]).Some? && IsSecretRef(At(v, p[..k]).value)
  }

  predicate BindingAt(v: Value, p: Path, k: nat)
    requires k <= |p|
  {
    At(v, p[..k]).Some? && IsPlainBinding(At(v, p[..k]).value)
  }

  /** The path runs through a secret reference.  The record that is sanitized is no
      reference itself, so for it the search starts at depth 1. */
  predicate UnderReference(v: Value, p: Path, from: nat) {
    exists k :: from <= k < |p| && RefAt(v, p, k)
  }

  predicate SecretExcused(v: Value, p: Path, from: nat) {
    UnderReference(v, p, from) || (At(v, p).Some? && IsSecretRef(At(v, p).value))
  }

  /** A token under a reference, in an array, or as the value of a plain binding. */
  predicate TokenExcused(v: Value, p: Path, from: nat)
    requires p != []
  {
    var n := |p| - 1;
    UnderReference(v, p, from) || p[n].Item? || (n >= from && p[n] == Key("value") && BindingAt(v, p, n))
  }

  // ---------- paths from the front ----------

  lemma FromFront(v: Value, p: Path, k: nat)
    requires p != [] && 1 <= k <= |p| && Child(v, p[0]).Some?
    ensures var w := Child(v, p[0]).value;
      && At(v, p) == At(w, p[1..]) && At(v, p[..k]) == At(w, p[1..][..k - 1])
      && RefAt(v, p, k) == RefAt(w, p[1..], k - 1) && BindingAt(v, p, k) == BindingAt(w, p[1..], k - 1)
  {
    assert p[..k][1..] == p[1..][..k - 1];
  }

  lemma UnderReferenceFromFront(v: Value, p: Path, from: nat)
    requires p != [] && from <= 1 && Child(v, p[0]).Some?
    ensures UnderReference(v, p, from)
      <==> (from == 0 && IsSecretRef(v)) || UnderReference(Child(v, p[0]).value, p[1..], 0)
  {
    var w := Child(v, p[0]).value;
    assert p[..0] == [] && RefAt(v, p, 0) == IsSecretRef(v);
    forall k | 1 <= k < |p| ensures RefAt(v, p, k) == RefAt(w, p[1..], k - 1) {
      FromFront(v, p, k);
    }
    if UnderReference(w, p[1..], 0) {
      var k :| 0 <= k < |p[1..]| && RefAt(w, p[1..], k);
      assert RefAt(v, p, k + 1);
    }
  }

  // ---------- what a sanitized record exposes ----------

  lemma ShortNamesAreNotSecret()
    ensures !IsSecretKey("type") && !IsSecretKey("value")
  {
    assert forall k :: 0 <= k < |SECRET_PARTS| && |SECRET_PARTS[k]| <= 5 ==> SECRET_PARTS[k] == "auth" || SECRET_PARTS[k] == "jwt";
    NotContained("type", "auth", 'a', 0);
    NotContained("type", "jwt", 'j', 0);
    NotContained("value", "auth", 't', 2);
    NotContained("value", "jwt", 'j', 0);
  }

  /** A part with a letter that the name does not have. */
  lemma NotContained(name: string, part: string, c: char, i: nat)
    requires i < |part| && part[i] == c && forall j :: 0 <= j < |name| ==> LowerChar(name[j]) != c
    ensures !Contains(Lower(name), part)
  {
    var s := Lower(name);
    forall j | 0 <= j <= |s| - |part| ensures !(part <= s[j..]) {
      assert s[j..][i] == s[j + i];
    }
  }

  lemma PlainIsNoToken()
    ensures !LooksLikeJwt("plain")
  {
    UpToAll("plain", '.');
  }

  /** In a clean value every exposure is excused; one at the value itself is its holder's. */
  lemma {:induction false} CleanIsExcused(v: Value, p: Path)
    requires Clean(v)
    ensures SecretExposed(v, p) ==> SecretExcused(v, p, 0)
    ensures TokenExposed(v, p) && p != [] ==> TokenExcused(v, p, 0)
    decreases |p|
  {
    if p != [] && Child(v, p[0]).Some? {
      UnderReferenceFromFront(v, p, 0);
      FromFront(v, p, |p|);
      var w := Child(v, p[0]).value;
      if IsSecretRef(v) {
      } else if v.Array? {
        CleanIsExcused(w, p[1..]);
        ExcusesFromFront(v, p, 0);
      } else if IsPlainBinding(v) {
        BindingIsExcused(v, p);
      } else {
        FieldIsExcused(v, p, 0);
      }
    }
  }

  lemma ExcusesFromFront(v: Value, p: Path, from: nat)
    requires p != [] && from <= 1 && Child(v, p[0]).Some?
    ensures var w := Child(v, p[0]).value;
      && (p[1..] != [] ==> SecretExposed(v, p) == SecretExposed(w, p[1..]))
      && TokenExposed(v, p) == TokenExposed(w, p[1..])
      && (SecretExcused(w, p[1..], 0) ==> SecretExcused(v, p, from))
      && (p[1..] != [] && TokenExcused(w, p[1..], 0) ==> TokenExcused(v, p, from))
  {
    UnderReferenceFromFront(v, p, from);
    FromFront(v, p, |p|);
    if |p| > 1 {
      FromFront(v, p, |p| - 1);
    }
  }

  lemma BindingIsExcused(v: Value, p: Path)
    requires Clean(v) && !IsSecretRef(v) && IsPlainBinding(v) && p != [] && Child(v, p[0]).Some?
    ensures SecretExposed(v, p) ==> SecretExcused(v, p, 0)
    ensures TokenExposed(v, p) ==> TokenExcused(v, p, 0)
    decreases |p|, 0
  {
    var w := Child(v, p[0]).value;
    ShortNamesAreNotSecret();
    ExcusesFromFront(v, p, 0);
    assert p[0] == Key("type") || p[0] == Key("value");
    if p[0] == Key("type") {
      PlainIsNoToken();
      TextHasNoParts("plain", p[1..]);
    } else {
      CleanIsExcused(w, p[1..]);
      assert p[..0] == [] && BindingAt(v, p, 0);
    }
  }

  lemma FieldIsExcused(v: Value, p: Path, from: nat)
    requires from <= 1 && v.Record? && CleanRecord(v) && p != [] && Child(v, p[0]).Some?
    ensures SecretExposed(v, p) ==> SecretExcused(v, p, from)
    ensures TokenExposed(v, p) ==> TokenExcused(v, p, from)
    decreases |p|, 0
  {
    var w := Child(v, p[0]).value;
    assert CleanField(p[0].name, w);
    ExcusesFromFront(v, p, from);
    if !IsSecretStep(p[0]) {
      CleanIsExcused(w, p[1..]);
    } else if IsSecretRef(w) {
      ReferenceExcuses(v, p, from);
    } else {
      RedactedHidesAll(w, p[1..]);
      assert |p| == 1 ==> p[|p| - 1] == p[0];
    }
  }

  lemma ReferenceExcuses(v: Value, p: Path, from: nat)
    requires from <= 1 && p != [] && Child(v, p[0]).Some? && IsSecretRef(Child(v, p[0]).value)
    ensures SecretExcused(v, p, from) && (TokenExposed(v, p) ==> UnderReference(v, p, from))
  {
    FromFront(v, p, 1);
    FromFront(v, p, |p|);
    assert p[1..][..0] == [] && RefAt(v, p, 1);
  }

  lemma TextHasNoParts(s: string, q: Path)
    ensures At(Str(s), q) == if q == [] then Some(Str(s)) else None
  {
  }

  lemma RedactedHidesAll(w: Value, q: Path)
    requires IsRedacted(w)
    ensures !SecretExposed(w, q) && !TokenExposed(w, q)
  {
    MarkIsNoToken();
    if w.Str? {
      TextHasNoParts(REDACTED, q);
    } else {
      MarkedBindingParts(q);
      PlainIsNoToken();
      ShortNamesAreNotSecret();
    }
  }

  lemma MarkedBindingParts(q: Path)
    ensures At(Plain(Str(REDACTED)), q) ==
      if q == [] then Some(Plain(Str(REDACTED)))
      else if q == [Key("type")] then Some(Str("plain"))
      else if q == [Key("value")] then Some(Str(REDACTED))
      else None
  {
    var w := Plain(Str(REDACTED));
    if q != [] && Child(w, q[0]).Some? {
      TextHasNoParts(Child(w, q[0]).value.s, q[1..]);
    }
  }

  /** Whatever goes in: what a sanitized record shows under a secret-named key is a mark, a binding
      of the mark, or is or stands under a secret reference; and a token it shows stands under a
      secret reference, in an array, or is the value of a plain binding. */
  lemma ExposuresAreExcused(v: Value, p: Path)
    requires v.Record?
    ensures var r := Record(SanitizeFields(v));
      && (SecretExposed(r, p) ==> SecretExcused(r, p, 1))
      && (TokenExposed(r, p) ==> p != [] && TokenExcused(r, p, 1))
  {
    SanitizedIsClean(v);
    var r := Record(SanitizeFields(v));
    if p != [] && Child(r, p[0]).Some? {
      FieldIsExcused(r, p, 1);
    }
  }

  // ---------- what of the input survives ----------

  /** Step k - 1 of the path is not let through: it leads under a secret-named key to something
      other than a reference, or out of a plain binding by a third property. */
  predicate CutAt(v: Value, p: Path, from: nat, k: nat)
    requires 1 <= k <= |p|
  {
    || (IsSecretStep(p[k - 1]) && !RefAt(v, p, k))
    || (k - 1 >= from && BindingAt(v, p, k - 1) && p[k - 1] != Key("type") && p[k - 1] != Key("value"))
  }

  /** Some step is not let through before a reference covers the rest. */
  predicate IsCut(v: Value, p: Path, from: nat) {
    exists k :: 1 <= k <= |p| && CutAt(v, p, from, k) && !UnderReference(v, p[..k], from)
  }

  predicate IsToken(x: Value) {
    x.Str? && LooksLikeJwt(x.s)
  }

  /** What comes through. */
  predicate Survives(v: Value, p: Path, x: Value, from: nat) {
    !IsCut(v, p, from) && (IsToken(x) && p != [] ==> TokenExcused(v, p, from))
  }

  lemma CutFromFront(v: Value, p: Path, from: nat)
    requires p != [] && from <= 1 && Child(v, p[0]).Some? && !(from == 0 && IsSecretRef(v)) && !CutAt(v, p, from, 1)
    ensures IsCut(v, p, from) <==> IsCut(Child(v, p[0]).value, p[1..], 0)
  {
    var w, q := Child(v, p[0]).value, p[1..];
    forall k | 2 <= k <= |p|
      ensures CutAt(v, p, from, k) == CutAt(w, q, 0, k - 1)
      ensures UnderReference(v, p[..k], from) == UnderReference(w, q[..k - 1], 0)
    {
      FromFront(v, p, k);
      FromFront(v, p, k - 1);
      assert p[..k][1..] == q[..k - 1] && p[..k][0] == p[0];
      UnderReferenceFromFront(v, p[..k], from);
    }
    if IsCut(w, q, 0) {
      var k :| 1 <= k <= |q| && CutAt(w, q, 0, k) && !UnderReference(w, q[..k], 0);
      assert CutAt(v, p, from, k + 1);
    }
  }

  lemma {:induction false} ItemIsSanitized(items: seq<Value>, i: nat)
    requires i < |items|
    ensures SanitizeItems(items)[i] == SanitizeValue(items[i])
  {
    var first, rest := SanitizeValue(items[0]), SanitizeItems(items[1..]);
    assert SanitizeItems(items) == [first] + rest;
    if i > 0 {
      ItemIsSanitized(items[1..], i - 1);
      assert ([first] + rest)[i] == rest[i - 1];
    }
  }

  /** A value without parts that the sanitizer does not write itself. */
  predicate IsLeaf(x: Value) {
    !x.Record? && !x.Array? && x != Str(REDACTED) && x != Str("plain")
  }

  predicate Has(v: Value, p: Path, x: Value) {
    At(v, p) == Some(x)
  }

  lemma {:induction false} ValueLeafSurvives(v: Value, p: Path, x: Value)
    requires Has(v, p, x) && IsLeaf(x)
    ensures Has(SanitizeValue(v), p, x) <==> Survives(v, p, x, 0)
    decreases |p|, 1
  {
    if p == [] {
      assert !IsCut(v, p, 0);
    } else if IsSecretRef(v) {
      CoveredSurvives(v, p);
    } else if v.Array? {
      ItemLeafSurvives(v, p, x);
    } else if IsPlainBinding(v) {
      BindingLeafSurvives(v, p, x);
    } else {
      FieldLeafSurvives(v, p, x, 0);
    }
  }

  lemma CoveredSurvives(v: Value, p: Path)
    requires IsSecretRef(v) && p != []
    ensures !IsCut(v, p, 0) && UnderReference(v, p, 0)
  {
    assert p[..0] == [] && RefAt(v, p, 0);
    forall k | 1 <= k <= |p| ensures UnderReference(v, p[..k], 0) {
      assert p[..k][..0] == [] && RefAt(v, p[..k], 0);
    }
  }

  /** A token further down is excused at the child exactly when it is excused here. */
  lemma TokenExcuseFromFront(v: Value, p: Path, from: nat)
    requires |p| > 1 && from <= 1 && Child(v, p[0]).Some? && !(from == 0 && IsSecretRef(v))
    ensures TokenExcused(v, p, from) <==> TokenExcused(Child(v, p[0]).value, p[1..], 0)
  {
    UnderReferenceFromFront(v, p, from);
    FromFront(v, p, |p| - 1);
  }

  lemma ItemLeafSurvives(v: Value, p: Path, x: Value)
    requires v.Array? && p != [] && Has(v, p, x) && IsLeaf(x)
    ensures Has(SanitizeValue(v), p, x) <==> Survives(v, p, x, 0)
    decreases |p|, 0
  {
    var w, q := Child(v, p[0]).value, p[1..];
    ItemIsSanitized(v.items, p[0].index);
    ValueLeafSurvives(w, q, x);
    assert p[..0] == [] && !BindingAt(v, p, 0);
    CutFromFront(v, p, 0);
    if q != [] {
      TokenExcuseFromFront(v, p, 0);
    }
  }

  lemma BindingLeafSurvives(v: Value, p: Path, x: Value)
    requires IsPlainBinding(v) && p != [] && Has(v, p, x) && IsLeaf(x)
    ensures Has(SanitizeValue(v), p, x) <==> Survives(v, p, x, 0)
    decreases |p|, 0
  {
    var w, q := Child(v, p[0]).value, p[1..];
    assert !IsSecretRef(v);
    assert p[..0] == [] && BindingAt(v, p, 0);
    if p[0] == Key("value") {
      ShortNamesAreNotSecret();
      ValueLeafSurvives(w, q, x);
      CutFromFront(v, p, 0);
      if q != [] {
        TokenExcuseFromFront(v, p, 0);
      }
    } else {
      assert p[0] == Key("type") ==> w == Str("plain") && Has(w, q, x);
      TextHasNoParts("plain", q);
      FirstStepCuts(v, p, 0);
    }
  }

  lemma FirstStepCuts(v: Value, p: Path, from: nat)
    requires p != [] && from <= 1 && CutAt(v, p, from, 1) && !(from == 0 && IsSecretRef(v))
    ensures IsCut(v, p, from)
  {
    assert p[..1][..0] == [];
    assert !UnderReference(v, p[..1], from) by {
      assert RefAt(v, p[..1], 0) == IsSecretRef(v);
    }
  }

  lemma FieldLeafSurvives(v: Value, p: Path, x: Value, from: nat)
    requires v.Record? && p != [] && Has(v, p, x) && IsLeaf(x)
    requires from == 1 || (from == 0 && !IsSecretRef(v) && !IsPlainBinding(v))
    ensures Has(Record(SanitizeFields(v)), p, x) <==> Survives(v, p, x, from)
    decreases |p|, 0
  {
    var w, q := Child(v, p[0]).value, p[1..];
    FromFront(v, p, 1);
    assert q[..0] == [] && p[..0] == [];
    assert RefAt(v, p, 1) == IsSecretRef(w) && !(from == 0 && BindingAt(v, p, 0));
    if IsSecretStep(p[0]) && !IsSecretRef(w) {
      FirstStepCuts(v, p, from);
      MarkedBindingParts(q);
      TextHasNoParts(REDACTED, q);
    } else {
      CutFromFront(v, p, from);
      UncutFieldSurvives(v, p, x, from);
    }
  }

  lemma UncutFieldSurvives(v: Value, p: Path, x: Value, from: nat)
    requires v.Record? && p != [] && Has(v, p, x) && IsLeaf(x)
    requires from == 1 || (from == 0 && !IsSecretRef(v) && !IsPlainBinding(v))
    requires IsSecretStep(p[0]) ==> IsSecretRef(Child(v, p[0]).value)
    requires IsCut(v, p, from) <==> IsCut(Child(v, p[0]).value, p[1..], 0)
    ensures Has(Record(SanitizeFields(v)), p, x) <==> Survives(v, p, x, from)
    decreases |p|, 0, 0
  {
    var w, q := Child(v, p[0]).value, p[1..];
    var r, w' := Record(SanitizeFields(v)), SanitizeField(p[0].name, w);
    assert Child(r, p[0]) == Some(w') && At(r, p) == At(w', q);
    if q == [] {
      assert At(w, q) == Some(w) == Some(x) && At(w', q) == Some(w');
      assert w == x && !IsSecretKey(p[0].name) && SanitizeValue(w) == w;
      LoneField(v, p, from);
    } else {
      ValueLeafSurvives(w, q, x);
      TokenExcuseFromFront(v, p, from);
      assert SanitizeField(p[0].name, w) == SanitizeValue(w);
    }
  }

  /** A token that a record holds directly is not excused. */
  lemma LoneField(v: Value, p: Path, from: nat)
    requires |p| == 1 && v.Record? && Child(v, p[0]).Some? && !Child(v, p[0]).value.Record?
    requires from == 1 || (from == 0 && !IsSecretRef(v) && !IsPlainBinding(v))
    ensures !TokenExcused(v, p, from)
    ensures !IsCut(Child(v, p[0]).value, p[1..], 0)
  {
    assert p[..0] == [];
    UnderReferenceFromFront(v, p, from);
  }

  /** A leaf of the input - other than the two texts the sanitizer writes - is in the output at the
      same place exactly when no step on the way is cut and, if it is a token, it is excused. */
  lemma LeafSurvivesIff(v: Value, p: Path, x: Value)
    requires v.Record? && p != [] && Has(v, p, x) && IsLeaf(x)
    ensures Has(Record(SanitizeFields(v)), p, x) <==> Survives(v, p, x, 1)
  {
    FieldLeafSurvives(v, p, x, 1);
  }

  // ---------- such exposures do occur ----------

  /** A token in an array is shown. */
  lemma ArrayShowsToken(token: string)
    requires LooksLikeJwt(token)
    ensures TokenExposed(Record(SanitizeFields(Record(map["value" := Array([Str(token)])]))), [Key("value"), Item(0)])
  {
    ShortNamesAreNotSecret();
    var tokens := Array([Str(token)]);
    var r := Record(SanitizeFields(Record(map["value" := tokens])));
    ItemIsSanitized([Str(token)], 0);
    assert SanitizeValue(tokens) == Array(SanitizeItems([Str(token)]));
    assert Child(r, Key("value")) == Some(SanitizeField("value", tokens)) == Some(SanitizeValue(tokens));
    TwoSteps(r, Key("value"), Item(0));
  }

  /** So is a password that stands beside the id of a secret reference. */
  lemma ReferenceShowsPassword(id: string, password: string)
    requires password != REDACTED
    ensures var ref := Record(map["type" := Str("secret_ref"), "secretId" := Str(id), "password" := Str(password)]);
      SecretExposed(Record(SanitizeFields(Record(map["value" := ref]))), [Key("value"), Key("password")])
  {
    ShortNamesAreNotSecret();
    PasswordIsSecret();
    var ref := Record(map["type" := Str("secret_ref"), "secretId" := Str(id), "password" := Str(password)]);
    var r := Record(SanitizeFields(Record(map["value" := ref])));
    assert SanitizeValue(ref) == ref;
    assert Child(r, Key("value")) == Some(SanitizeField("value", ref)) == Some(ref);
    TwoSteps(r, Key("value"), Key("password"));
  }

  lemma TwoSteps(v: Value, a: Step, b: Step)
    requires Child(v, a).Some?
    ensures At(v, [a, b]) == Child(Child(v, a).value, b)
  {
    var w := Child(v, a).value;
    assert [a, b][1..] == [b] && [b][1..] == [];
    assert At(v, [a, b]) == At(w, [b]);
    assert Child(w, b).Some? ==> At(w, [b]) == At(Child(w, b).value, []);
  }

  lemma PasswordIsSecret()
    ensures IsSecretKey("password")
  {
    var s := Lower("password");
    assert s == "password" && s[0..] == s;
    assert Contains(s, SECRET_PARTS[10]);
  }
}
