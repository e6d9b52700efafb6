/** src/aegis_agent/security/secrets.py: masking secret values in a JSON tree before it is stored or shown. */
module Redaction {
  import opened Common

  datatype Json =
    | Null
    | Boolean(flag: bool)
    | Number(number: real)
    | Text(text: string)
    | Array(items: seq<Json>)
    | Object(fields: seq<Field>)

  datatype Field = Field(key: string, value: Json)

  const MARKER: Json := Text("***REDACTED***")

  predicate MaskOnly(key: string) {
    key == "api_key_file" || key == "api_key_env" || key == "fail_on_insecure_secret_permissions"
  }

  predicate IsSensitive(key: string) {
    var k := Lower(key);
    || k in ["api_key", "apikey", "openai_api_key", "gpt_api_key", "authorization", "bearer", "token", "secret", "password", "client_secret"]
    || Contains(k, "api_key") || Contains(k, "secret") || Contains(k, "password") || Contains(k, "token")
  }

  /** How a key is treated: mask-only keys are looked at first. */
  datatype Treatment = Keep | Mask | Recurse

  function TreatmentOf(key: string): Treatment {
    if MaskOnly(key) then Keep else if IsSensitive(key) then Mask else Recurse
  }

  predicate Empty(v: Json) {
    v.Null? || v == Text("")
  }

  function Redact(x: Json): Json {
    match x
    case Array(items) => Array(seq(|items|, i requires 0 <= i < |items| => Redact(items[i])))
    case Object(fields) => Object(seq(|fields|, i requires 0 <= i < |fields| => RedactField(fields[i])))
    case _ => x
  }

  function RedactField(f: Field): Field {
    match TreatmentOf(f.key)
    case Keep => f
    case Mask => Field(f.key, if Empty(f.value) then f.value else MARKER)
    case Recurse => Field(f.key, Redact(f.value))
  }

  // ---- What redaction hides, and nothing else ----

  /** The same tree, except for which non-empty value stands under a sensitive key. */
  predicate Alike(x: Json, y: Json) {
    match (x, y)
    case (Array(a), Array(b)) => |a| == |b| && forall i :: 0 <= i < |a| ==> Alike(a[i], b[i])
    case (Object(a), Object(b)) => |a| == |b| && forall i :: 0 <= i < |a| ==> AlikeFields(a[i], b[i])
    case _ => x == y
  }

  predicate AlikeFields(f: Field, g: Field) {
    && f.key == g.key
    && match TreatmentOf(f.key)
       case Keep => f.value == g.value
       case Mask => if Empty(f.value) || Empty(g.value) then f.value == g.value else true
       case Recurse => Alike(f.value, g.value)
  }

  /** Redacting twice is redacting once. */
  lemma {:induction false} RedactIdempotent(x: Json)
    ensures Redact(Redact(x)) == Redact(x)
  {
    match x
    case Array(items) =>
      forall i | 0 <= i < |items| ensures Redact(Redact(items[i])) == Redact(items[i]) {
        RedactIdempotent(items[i]);
      }
    case Object(fields) =>
      forall i | 0 <= i < |fields| ensures RedactField(RedactField(fields[i])) == RedactField(fields[i]) {
        RedactIdempotent(fields[i].value);
      }
    case _ =>
  }

  /** Two trees redact to the same result exactly when they are alike. */
  lemma {:induction false} RedactHidesExactly(x: Json, y: Json)
    ensures Redact(x) == Redact(y) <==> Alike(x, y)
    decreases x, 1
  {
    match (x, y)
    case (Array(a), Array(b)) => ArraysHideExactly(x, y);
    case (Object(a), Object(b)) => ObjectsHideExactly(x, y);
    case _ =>
  }

  lemma {:induction false} ArraysHideExactly(x: Json, y: Json)
    requires x.Array? && y.Array?
    ensures Redact(x) == Redact(y) <==> Alike(x, y)
    decreases x, 0
  {
    var a, b, ra, rb := x.items, y.items, Redact(x).items, Redact(y).items;
    assert |ra| == |a| && |rb| == |b|;
    if |a| == |b| {
      forall i | 0 <= i < |a| ensures ra[i] == rb[i] <==> Alike(a[i], b[i]) {
        RedactHidesExactly(a[i], b[i]);
      }
      assert ra == rb <==> forall i :: 0 <= i < |a| ==> ra[i] == rb[i];
    }
  }

  lemma FieldsHideExactly(f: Field, g: Field)
    requires Redact(f.value) == Redact(g.value) <==> Alike(f.value, g.value)
    ensures RedactField(f) == RedactField(g) <==> AlikeFields(f, g)
  {
    hide Redact, Alike;
  }

  lemma {:induction false} ObjectsHideExactly(x: Json, y: Json)
    requires x.Object? && y.Object?
    ensures Redact(x) == Redact(y) <==> Alike(x, y)
    decreases x, 0
  {
    var a, b, ra, rb := x.fields, y.fields, Redact(x).fields, Redact(y).fields;
    assert |ra| == |a| && |rb| == |b|;
    if |a| == |b| {
      forall i | 0 <= i < |a| ensures ra[i] == rb[i] <==> AlikeFields(a[i], b[i]) {
        RedactHidesExactly(a[i].value, b[i].value);
        FieldsHideExactly(a[i], b[i]);
      }
      assert ra == rb <==> forall i :: 0 <= i < |a| ==> ra[i] == rb[i];
    }
  }

  /** A raw secret somewhere in the tree: a value under a sensitive key that is neither empty nor masked. */
  predicate Leaks(x: Json) {
    match x
    case Array(items) => exists i :: 0 <= i < |items| && Leaks(items[i])
    case Object(fields) => exists i :: 0 <= i < |fields| && LeaksField(fields[i])
    case _ => false
  }

  predicate LeaksField(f: Field) {
    (TreatmentOf(f.key).Mask? && !Empty(f.value) && f.value != MARKER) || (!TreatmentOf(f.key).Mask? && Leaks(f.value))
  }

  /** A raw secret inside the value of a mask-only key that is reached without passing a sensitive key. */
  predicate LeaksUnderMaskOnly(x: Json) {
    match x
    case Array(items) => exists i :: 0 <= i < |items| && LeaksUnderMaskOnly(items[i])
    case Object(fields) => exists i :: 0 <= i < |fields| && LeaksUnderMaskOnlyField(fields[i])
    case _ => false
  }

  predicate LeaksUnderMaskOnlyField(f: Field) {
    match TreatmentOf(f.key)
    case Keep => Leaks(f.value)
    case Mask => false
    case Recurse => LeaksUnderMaskOnly(f.value)
  }

  /** Redaction leaves a raw secret behind exactly when one sits inside the value of a mask-only key. */
  lemma {:induction false} WhatRedactionMisses(x: Json)
    ensures Leaks(Redact(x)) <==> LeaksUnderMaskOnly(x)
  {
    match x
    case Array(items) =>
      forall i | 0 <= i < |items| ensures Leaks(Redact(x).items[i]) <==> LeaksUnderMaskOnly(items[i]) {
        WhatRedactionMisses(items[i]);
      }
    case Object(fields) =>
      forall i | 0 <= i < |fields| ensures LeaksField(Redact(x).fields[i]) <==> LeaksUnderMaskOnlyField(fields[i]) {
        WhatRedactionMisses(fields[i].value);
      }
    case _ =>
  }

  // ---- The central store (src/aegis_central/server.py) ----

  /** JSON text encoding and decoding. */
  datatype Codec = Codec(dumps: Json -> string, loads: string -> Option<Json>)

  function SafeStore(c: Codec, payload: Json): string {
    c.dumps(Redact(payload))
  }

  /** A text that does not parse yields the default. */
  function SafePayload(c: Codec, raw: string, default_: Json): Json {
    match c.loads(raw)
    case Some(x) => Redact(x)
    case None => Redact(default_)
  }

  /** Decoding gives back what was encoded. */
  predicate Carries(c: Codec, payload: Json) {
    c.loads(c.dumps(payload)) == Some(payload)
  }

  /** Storing and loading a payload whose redacted form the codec carries returns the once-redacted payload, and
      so reveals nothing redaction hides. */
  lemma StoreThenLoad(c: Codec, x: Json, y: Json, default_: Json)
    requires Carries(c, Redact(x)) && Carries(c, Redact(y))
    ensures SafePayload(c, SafeStore(c, x), default_) == Redact(x)
    ensures SafePayload(c, SafeStore(c, x), default_) == SafePayload(c, SafeStore(c, y), default_) <==> Alike(x, y)
  {
    RedactIdempotent(x);
    RedactIdempotent(y);
    RedactHidesExactly(x, y);
  }

  // ---- The definitions in literals ----

  /** The key names a secret: in any case it holds one of four words, or is one of three names. */
  predicate NamesSecret(key: string) {
    var k := Lower(key);
    || Contains(k, "api_key") || Contains(k, "secret") || Contains(k, "password") || Contains(k, "token")
    || k == "apikey" || k == "authorization" || k == "bearer"
  }

  predicate NamesReference(key: string) {
    key == "api_key_file" || key == "api_key_env" || key == "fail_on_insecure_secret_permissions"
  }

  lemma Occurs(haystack: string, needle: string, k: nat)
    requires k + |needle| <= |haystack| && haystack[k..k + |needle|] == needle
    ensures Contains(haystack, needle)
  {
    assert OccursAt(haystack, needle, k);
  }

  /** Case is folded from A to Z and nowhere else. */
  lemma FoldedCases()
    ensures Lower("@AMZ[`amz{09") == "@amz[`amz{09"
  {
  }

  lemma SensitiveInFull(key: string)
    ensures IsSensitive(key) <==> NamesSecret(key)
  {
    Occurs("api_key", "api_key", 0);
    Occurs("openai_api_key", "api_key", 7);
    Occurs("gpt_api_key", "api_key", 4);
    Occurs("token", "token", 0);
    Occurs("secret", "secret", 0);
    Occurs("password", "password", 0);
    Occurs("client_secret", "secret", 7);
  }

  /** What redaction makes of one field: a reference to a secret stays, a secret becomes the marker unless it is null
      or empty, and everything else is redacted inside. */
  lemma FieldInFull(key: string, v: Json)
    ensures Redact(Object([Field(key, v)])) ==
            Object([Field(key,
              if NamesReference(key) then v
              else if !NamesSecret(key) then Redact(v)
              else if v == Null || v == Text("") then v
              else Text("***REDACTED***"))])
  {
    SensitiveInFull(key);
    hide NamesSecret, IsSensitive;
    var f := Field(key, v);
    assert Redact(Object([f])).fields == [RedactField(f)];
  }

  /** A few keys and how they are treated. */
  lemma SomeKeys()
    ensures NamesSecret("access_token") && NamesSecret("openai_api_key") && NamesSecret("db_password") && NamesSecret("bearer")
    ensures NamesSecret("api_key_file") && NamesReference("api_key_file")
  {
    Occurs(Lower("access_token"), "token", 7);
    Occurs(Lower("openai_api_key"), "api_key", 7);
    Occurs(Lower("db_password"), "password", 3);
    Occurs(Lower("api_key_file"), "api_key", 0);
    assert Lower("bearer") == "bearer";
  }
}
