/** Redaction of secrets in event payloads. */
module Redaction {
  import opened Common

  /** A JavaScript value.  Record is a plain object; Opaque is any other object,
      which the sanitizer passes through. */
  datatype Value =
    | Undefined | Null | Bool(b: bool) | Number(n: real) | Str(s: string)
    | Array(items: seq<Value>) | Record(fields: map<string, Value>) | Opaque(id: nat)

  type Fields = map<string, Value>

  const REDACTED := "***REDACTED***"

  // ---------- the two patterns ----------

  function LowerChar(c: char): char {
    if 'A' <= c <= 'Z' then (c as int + 32) as char else c
  }

  function Lower(s: string): string {
    seq(|s|, i requires 0 <= i < |s| => LowerChar(s[i]))
  }

  predicate Contains(s: string, part: string) {
    exists i :: 0 <= i <= |s| - |part| && part <= s[i..]
  }

  /** SECRET_PAYLOAD_KEY_RE, each alternative written out ("authorization" and
      "auth_token" contain "auth"). */
  const SECRET_PARTS: seq<string> := [
    "apikey", "api-key", "api_key", "accesstoken", "access-token", "access_token", "auth", "bearer", "secret", "passwd",
    "password", "credential", "jwt", "privatekey", "private-key", "private_key", "cookie", "connectionstring"]

  predicate IsSecretKey(key: string) {
    exists k :: 0 <= k < |SECRET_PARTS| && Contains(Lower(key), SECRET_PARTS[k])
  }

  predicate IsTokenChar(c: char) {
    'A' <= c <= 'Z' || 'a' <= c <= 'z' || '0' <= c <= '9' || c == '_' || c == '-'
  }

  /** A nonempty run of token characters, then - as often as asked - a dot and another. */
  predicate IsTokenRuns(s: string, dots: nat)
    decreases dots
  {
    if dots == 0 then s != [] && forall i :: 0 <= i < |s| ==> IsTokenChar(s[i])
    else
      var first := UpTo(s, '.');
      && |first| < |s|
      && first != [] && (forall i :: 0 <= i < |first| ==> IsTokenChar(first[i]))
      && IsTokenRuns(s[|first| + 1..], dots - 1)
  }

  /** JWT_VALUE_RE: three or four runs between dots. */
  predicate LooksLikeJwt(s: string) {
    IsTokenRuns(s, 2) || IsTokenRuns(s, 3)
  }

  // ---------- the sanitizer ----------

  predicate IsSecretRef(v: Value) {
    v.Record? && "type" in v.fields && v.fields["type"] == Str("secret_ref")
    && "secretId" in v.fields && v.fields["secretId"].Str?
  }

  predicate IsPlainBinding(v: Value) {
    v.Record? && "type" in v.fields && v.fields["type"] == Str("plain") && "value" in v.fields
  }

  function Plain(v: Value): Value {
    Record(map["type" := Str("plain"), "value" := v])
  }

  function SanitizeValue(v: Value): Value
    decreases v, 1
  {
    if v.Array? then Array(SanitizeItems(v.items))
    else if IsSecretRef(v) then v
    else if IsPlainBinding(v) then Plain(SanitizeValue(v.fields["value"]))
    else if v.Record? then Record(SanitizeFields(v))
    else v
  }

  function SanitizeItems(items: seq<Value>): (r: seq<Value>)
    ensures |r| == |items|
    decreases items
  {
    if items == [] then [] else [SanitizeValue(items[0])] + SanitizeItems(items[1..])
  }

  /** What a record holds under a key after sanitizing. */
  function SanitizeField(key: string, v: Value): Value
    decreases v, 2
  {
    if IsSecretKey(key) then
      if IsSecretRef(v) then v
      else if IsPlainBinding(v) then Plain(Str(REDACTED))
      else Str(REDACTED)
    else if v.Str? && LooksLikeJwt(v.s) then Str(REDACTED)
    else SanitizeValue(v)
  }

  function SanitizeFields(v: Value): Fields
    requires v.Record?
    decreases v, 0
  {
    map key | key in v.fields :: SanitizeField(key, v.fields[key])
  }

  /** sanitizeRecord: the loop over the entries, writing a fresh record. */
  method SanitizeRecord(record: Fields) returns (redacted: Fields)
    ensures redacted == SanitizeFields(Record(record))
  {
    redacted := map[];
    var todo := record.Keys;
    while todo != {}
      invariant todo <= record.Keys && redacted.Keys == record.Keys - todo
      invariant forall key :: key in redacted ==> redacted[key] == SanitizeField(key, record[key])
      decreases todo
    {
      var key :| key in todo;
      var value := record[key];
      if IsSecretKey(key) {
        if IsSecretRef(value) {
          redacted := redacted[key := SanitizeValue(value)];
        } else if IsPlainBinding(value) {
          redacted := redacted[key := Plain(Str(REDACTED))];
        } else {
          redacted := redacted[key := Str(REDACTED)];
        }
      } else if value.Str? && LooksLikeJwt(value.s) {
        redacted := redacted[key := Str(REDACTED)];
      } else {
        redacted := redacted[key := SanitizeValue(value)];
      }
      todo := todo - {key};
    }
  }

  // ---------- sanitizing twice ----------

  /** A sanitized record is not mistaken for a plain binding. */
  lemma NotPlainAfterwards(v: Value)
    requires v.Record? && !IsSecretRef(v) && !IsPlainBinding(v)
    ensures !IsPlainBinding(Record(SanitizeFields(v)))
  {
    if "type" in v.fields {
      assert SanitizeFields(v)["type"] == SanitizeField("type", v.fields["type"]);
      PlainComesFromPlain("type", v.fields["type"]);
    }
  }

  lemma PlainComesFromPlain(key: string, v: Value)
    ensures SanitizeField(key, v) == Str("plain") ==> v == Str("plain")
  {
    var plain := "plain";
    assert plain[0] == 'p' && REDACTED[0] == '*';
    assert Str(REDACTED) != Str(plain);
    assert SanitizeValue(v).Str? ==> SanitizeValue(v) == v;
    if !IsSecretKey(key) && !(v.Str? && LooksLikeJwt(v.s)) {
      assert SanitizeField(key, v) == SanitizeValue(v);
    }
  }

  lemma {:induction false} ValueTwice(v: Value)
    ensures SanitizeValue(SanitizeValue(v)) == SanitizeValue(v)
    decreases v, 1
  {
    if v.Array? {
      ItemsTwice(v.items);
    } else if IsSecretRef(v) {
    } else if IsPlainBinding(v) {
      ValueTwice(v.fields["value"]);
    } else if v.Record? {
      NotPlainAfterwards(v);
      FieldsTwice(v);
    }
  }

  lemma {:induction false} ItemsTwice(items: seq<Value>)
    ensures SanitizeItems(SanitizeItems(items)) == SanitizeItems(items)
    decreases items
  {
    if items != [] {
      ValueTwice(items[0]);
      ItemsTwice(items[1..]);
    }
  }

  lemma {:induction false} FieldTwice(key: string, v: Value)
    ensures SanitizeField(key, SanitizeField(key, v)) == SanitizeField(key, v)
    decreases v, 2
  {
    ValueTwice(v);
  }

  /** Sanitizing a record twice is the same as sanitizing it once, at every depth. */
  lemma {:induction false} FieldsTwice(v: Value)
    requires v.Record?
    ensures SanitizeFields(Record(SanitizeFields(v))) == SanitizeFields(v)
    ensures SanitizeFields(v).Keys == v.fields.Keys
    decreases v, 0
  {
    forall key | key in v.fields
      ensures SanitizeField(key, SanitizeField(key, v.fields[key])) == SanitizeField(key, v.fields[key])
    {
      FieldTwice(key, v.fields[key]);
    }
  }

  // ---------- what stands in place of a secret ----------

  /** Under a secret-named key stands the mark, a binding of the mark for a plain binding, or the
      reference itself; under any other a token is replaced by the mark, and other leaves are kept. */
  lemma SecretsAreMarked(v: Value, key: string)
    requires v.Record? && key in v.fields
    ensures key in SanitizeFields(v)
    ensures var w, shown := v.fields[key], SanitizeFields(v)[key];
      && (IsSecretKey(key) && IsSecretRef(w) ==> shown == w)
      && (IsSecretKey(key) && !IsSecretRef(w) && IsPlainBinding(w) ==> shown == Plain(Str(REDACTED)))
      && (IsSecretKey(key) && !IsSecretRef(w) && !IsPlainBinding(w) ==> shown == Str(REDACTED))
      && (!IsSecretKey(key) && w.Str? ==> shown == if LooksLikeJwt(w.s) then Str(REDACTED) else w)
      && (!IsSecretKey(key) && !w.Str? && !w.Record? && !w.Array? ==> shown == w)
  {
    FieldIsSanitized(v, key);
    assert !v.fields[key].Record? && !v.fields[key].Array? ==> SanitizeValue(v.fields[key]) == v.fields[key];
  }

  lemma FieldIsSanitized(v: Value, key: string)
    requires v.Record? && key in v.fields
    ensures var w, shown := v.fields[key], SanitizeFields(v)[key];
      && (IsSecretKey(key) ==> shown == SanitizeField(key, w))
      && (!IsSecretKey(key) ==> shown == if w.Str? && LooksLikeJwt(w.s) then Str(REDACTED) else SanitizeValue(w))
  {
    assert SanitizeFields(v)[key] == SanitizeField(key, v.fields[key]);
  }

  /** And so in every record and list below it. */
  lemma PartsAreSanitized(v: Value, key: string)
    requires v.Record? && key in v.fields && !IsSecretKey(key) && !IsSecretRef(v.fields[key])
    ensures var w, shown := v.fields[key], SanitizeFields(v)[key];
      && (IsPlainBinding(w) ==> shown == Plain(SanitizeValue(w.fields["value"])))
      && (!IsPlainBinding(w) && w.Record? ==> shown == Record(SanitizeFields(w)))
      && (w.Array? ==> shown == Array(SanitizeItems(w.items)))
  {
    FieldIsSanitized(v, key);
    ValueByKind(v.fields[key]);
  }

  lemma ValueByKind(w: Value)
    requires !IsSecretRef(w)
    ensures IsPlainBinding(w) ==> SanitizeValue(w) == Plain(SanitizeValue(w.fields["value"]))
    ensures !IsPlainBinding(w) && w.Record? ==> SanitizeValue(w) == Record(SanitizeFields(w))
    ensures w.Array? ==> SanitizeValue(w) == Array(SanitizeItems(w.items))
  {
  }

  // ---------- fixed points ----------

  /** What the sanitizer does not change, written out by cases.  RedactionExposure says
      what such a value can still show. */
  predicate Clean(v: Value)
    decreases v, 1
  {
    if v.Array? then forall i :: 0 <= i < |v.items| ==> Clean(v.items[i])
    else if IsSecretRef(v) then true
    else if IsPlainBinding(v) then v == Plain(v.fields["value"]) && Clean(v.fields["value"])
    else v.Record? ==> CleanRecord(v)
  }

  predicate CleanField(key: string, v: Value)
    decreases v, 2
  {
    if IsSecretKey(key) then IsSecretRef(v) || v == Plain(Str(REDACTED)) || v == Str(REDACTED)
    else !(v.Str? && LooksLikeJwt(v.s)) && Clean(v)
  }

  predicate CleanRecord(v: Value)
    requires v.Record?
    decreases v, 0
  {
    forall key :: key in v.fields ==> CleanField(key, v.fields[key])
  }

  lemma MarkIsNoToken()
    ensures !LooksLikeJwt(REDACTED)
  {
    UpToAll(REDACTED, '.');
  }

  /** The sanitizer leaves exactly these values alone. */
  lemma {:induction false} FixedIffClean(v: Value)
    ensures SanitizeValue(v) == v <==> Clean(v)
    decreases v, 1
  {
    if v.Array? {
      ItemsFixedIffClean(v.items);
    } else if IsSecretRef(v) {
    } else if IsPlainBinding(v) {
      FixedIffClean(v.fields["value"]);
    } else if v.Record? {
      RecordFixedIffClean(v);
    }
  }

  lemma {:induction false} ItemsFixedIffClean(items: seq<Value>)
    ensures SanitizeItems(items) == items <==> forall i :: 0 <= i < |items| ==> Clean(items[i])
    decreases items
  {
    if items != [] {
      FixedIffClean(items[0]);
      ItemsFixedIffClean(items[1..]);
      assert items == [items[0]] + items[1..];
      assert SanitizeItems(items)[0] == SanitizeValue(items[0]) && SanitizeItems(items)[1..] == SanitizeItems(items[1..]);
      assert forall i :: 1 <= i < |items| ==> items[i] == items[1..][i - 1];
    }
  }

  lemma {:induction false} FieldFixedIffClean(key: string, v: Value)
    ensures SanitizeField(key, v) == v <==> CleanField(key, v)
    decreases v, 2
  {
    if IsSecretKey(key) {
      SecretFixedIffClean(key, v);
    } else {
      MarkIsNoToken();
      FixedIffClean(v);
    }
  }

  lemma SecretFixedIffClean(key: string, v: Value)
    requires IsSecretKey(key)
    ensures SanitizeField(key, v) == v <==> CleanField(key, v)
  {
    assert IsPlainBinding(Plain(Str(REDACTED)));
    assert "plain"[0] != "secret_ref"[0];
  }

  lemma {:induction false} RecordFixedIffClean(v: Value)
    requires v.Record?
    ensures SanitizeFields(v) == v.fields <==> CleanRecord(v)
    decreases v, 0
  {
    forall key | key in v.fields
      ensures SanitizeField(key, v.fields[key]) == v.fields[key] <==> CleanField(key, v.fields[key])
    {
      FieldFixedIffClean(key, v.fields[key]);
    }
  }

  /** Whatever goes in, what comes out is one of them and has the same keys. */
  lemma SanitizedIsClean(v: Value)
    requires v.Record?
    ensures CleanRecord(Record(SanitizeFields(v))) && SanitizeFields(v).Keys == v.fields.Keys
  {
    FieldsTwice(v);
    RecordFixedIffClean(Record(SanitizeFields(v)));
  }

  // ---------- what cannot be seen ----------

  /** The same kind of binding; a secret reference stands for itself. */
  predicate SameBinding(v: Value, w: Value) {
    if IsSecretRef(v) || IsSecretRef(w) then v == w else IsPlainBinding(v) == IsPlainBinding(w)
  }

  /** Equal but for what stands below secret-named keys and for tokens that records hold. */
  predicate Alike(v: Value, w: Value)
    decreases v, 1
  {
    if v.Array? then w.Array? && |v.items| == |w.items| && forall i :: 0 <= i < |v.items| ==> Alike(v.items[i], w.items[i])
    else if IsSecretRef(v) || IsSecretRef(w) then v == w
    else if IsPlainBinding(v) || IsPlainBinding(w) then
      IsPlainBinding(v) && IsPlainBinding(w) && Alike(v.fields["value"], w.fields["value"])
    else if v.Record? then w.Record? && AlikeRecord(v, w)
    else v == w
  }

  predicate AlikeField(key: string, v: Value, w: Value)
    decreases v, 2
  {
    if IsSecretKey(key) then SameBinding(v, w)
    else (v.Str? && w.Str? && LooksLikeJwt(v.s) && LooksLikeJwt(w.s)) || Alike(v, w)
  }

  predicate AlikeRecord(v: Value, w: Value)
    requires v.Record? && w.Record?
    decreases v, 0
  {
    v.fields.Keys == w.fields.Keys && forall key :: key in v.fields ==> AlikeField(key, v.fields[key], w.fields[key])
  }

  lemma {:induction false} AlikeValues(v: Value, w: Value)
    requires Alike(v, w)
    ensures SanitizeValue(v) == SanitizeValue(w)
    decreases v, 1
  {
    if v.Array? {
      AlikeItems(v.items, w.items);
    } else if IsSecretRef(v) || IsSecretRef(w) {
    } else if IsPlainBinding(v) {
      AlikeValues(v.fields["value"], w.fields["value"]);
    } else if v.Record? {
      SecretsDoNotShow(v, w);
    }
  }

  lemma {:induction false} AlikeItems(v: seq<Value>, w: seq<Value>)
    requires |v| == |w| && forall i :: 0 <= i < |v| ==> Alike(v[i], w[i])
    ensures SanitizeItems(v) == SanitizeItems(w)
    decreases v
  {
    if v != [] {
      AlikeValues(v[0], w[0]);
      AlikeItems(v[1..], w[1..]);
    }
  }

  /** Two records that differ only below secret-named keys (with the same kind of
      binding there) and in tokens are sanitized to the same record. */
  lemma {:induction false} SecretsDoNotShow(v: Value, w: Value)
    requires v.Record? && w.Record? && AlikeRecord(v, w)
    ensures SanitizeFields(v) == SanitizeFields(w)
    decreases v, 0
  {
    forall key | key in v.fields
      ensures SanitizeField(key, v.fields[key]) == SanitizeField(key, w.fields[key])
    {
      if !IsSecretKey(key) && Alike(v.fields[key], w.fields[key]) {
        AlikeValues(v.fields[key], w.fields[key]);
      }
    }
  }
}
