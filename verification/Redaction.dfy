/** The reporter's `redact`: what it keeps, what it removes, and exactly what its output reveals. */
module Redaction {
  import opened Wrappers
  import opened Json

  /** `sensitive` is the key pattern, `text` is `str`. */
  datatype Redactor = Redactor(sensitive: string -> bool, text: Json -> string)

  const CREDENTIAL_REF := "credential_ref"
  const MASK := Str("[REDACTED]")

  function Redact(c: Redactor, v: Json): Json
    decreases v, 2
  {
    match v
    case Object(fields) => Object(RedactFields(c, v, fields))
    case List(items) => List(RedactItems(c, v, items))
    case Tuple(items) => List(RedactItems(c, v, items))
    case _ => v
  }

  function RedactField(c: Redactor, ghost v: Json, f: Field): Field
    requires f < v
    decreases v, 0
  {
    Field(f.key,
          if f.key == CREDENTIAL_REF then Str(c.text(f.value))
          else if c.sensitive(f.key) then MASK
          else Redact(c, f.value))
  }

  function RedactFields(c: Redactor, ghost v: Json, fields: seq<Field>): (r: seq<Field>)
    requires forall i :: 0 <= i < |fields| ==> fields[i] < v
    ensures |r| == |fields|
    ensures forall i :: 0 <= i < |r| ==> r[i] == RedactField(c, v, fields[i])
    decreases v, 1, |fields|
  {
    if fields == [] then [] else [RedactField(c, v, fields[0])] + RedactFields(c, v, fields[1..])
  }

  function RedactItems(c: Redactor, ghost v: Json, items: seq<Json>): (r: seq<Json>)
    requires forall i :: 0 <= i < |items| ==> items[i] < v
    ensures |r| == |items|
    ensures forall i :: 0 <= i < |r| ==> r[i] == Redact(c, items[i])
    decreases v, 1, |items|
  {
    if items == [] then [] else [Redact(c, items[0])] + RedactItems(c, v, items[1..])
  }

  /** The loop that fills a fresh object, and the one that rebuilds a list. */
  method RedactTree(c: Redactor, v: Json) returns (r: Json)
    ensures r == Redact(c, v)
    decreases v
  {
    if v.Object? {
      var result := [];
      for i := 0 to |v.fields|
        invariant |result| == i && forall k :: 0 <= k < i ==> result[k] == RedactField(c, v, v.fields[k])
      {
        var f := v.fields[i];
        if f.key == CREDENTIAL_REF {
          result := result + [Field(f.key, Str(c.text(f.value)))];
        } else if c.sensitive(f.key) {
          result := result + [Field(f.key, MASK)];
        } else {
          var redacted := RedactTree(c, f.value);
          result := result + [Field(f.key, redacted)];
        }
      }
      assert result == RedactFields(c, v, v.fields);
      return Object(result);
    }
    if v.List? || v.Tuple? {
      var result := [];
      for i := 0 to |v.items|
        invariant |result| == i && forall k :: 0 <= k < i ==> result[k] == Redact(c, v.items[k])
      {
        var redacted := RedactTree(c, v.items[i]);
        result := result + [redacted];
      }
      assert result == RedactItems(c, v, v.items);
      return List(result);
    }
    return v;
  }

  // ---------------------------------------------------------------- what the output looks like

  /** At every depth: no tuple, text under `credential_ref`, the mask under every other sensitive key. */
  predicate Clean(c: Redactor, v: Json) {
    match v
    case Tuple(_) => false
    case List(items) => forall i :: 0 <= i < |items| ==> Clean(c, items[i])
    case Object(fields) =>
      forall i :: 0 <= i < |fields| ==>
                    var f := fields[i];
                    if f.key == "credential_ref" then f.value.Str? && c.text(f.value) == f.value.s
                    else if c.sensitive(f.key) then f.value == Str("[REDACTED]")
                    else Clean(c, f.value)
    case _ => true
  }

  /** `str` of a string is that string. */
  ghost predicate TextOfText(c: Redactor) {
    forall s :: c.text(Str(s)) == s
  }

  lemma {:induction false} RedactedIsClean(c: Redactor, v: Json)
    requires TextOfText(c)
    ensures Clean(c, Redact(c, v))
  {
    match v
    case Object(fields) =>
      forall i | 0 <= i < |fields| ensures !c.sensitive(fields[i].key) && fields[i].key != "credential_ref" ==>
          Clean(c, Redact(c, fields[i].value)) {
        RedactedIsClean(c, fields[i].value);
      }
    case List(items) =>
      forall i | 0 <= i < |items| ensures Clean(c, Redact(c, items[i])) {
        RedactedIsClean(c, items[i]);
      }
    case Tuple(items) =>
      forall i | 0 <= i < |items| ensures Clean(c, Redact(c, items[i])) {
        RedactedIsClean(c, items[i]);
      }
    case _ =>
  }

  /** The trees that redaction leaves as they are are exactly the clean ones. */
  lemma {:induction false} FixedIffClean(c: Redactor, v: Json)
    ensures Redact(c, v) == v <==> Clean(c, v)
  {
    match v
    case Object(fields) =>
      forall i | 0 <= i < |fields| ensures Redact(c, fields[i].value) == fields[i].value <==>
          Clean(c, fields[i].value) {
        FixedIffClean(c, fields[i].value);
      }
      SameSeq(RedactFields(c, v, fields), fields);
      assert Redact(c, v) == v <==> forall i :: 0 <= i < |fields| ==> RedactField(c, v, fields[i]) == fields[i];
    case List(items) =>
      forall i | 0 <= i < |items| ensures Redact(c, items[i]) == items[i] <==> Clean(c, items[i]) {
        FixedIffClean(c, items[i]);
      }
      SameSeq(RedactItems(c, v, items), items);
    case _ =>
  }

  /** Redacting twice is redacting once. */
  lemma RedactIsIdempotent(c: Redactor, v: Json)
    requires TextOfText(c)
    ensures Redact(c, Redact(c, v)) == Redact(c, v)
  {
    RedactedIsClean(c, v);
    FixedIffClean(c, Redact(c, v));
  }

  // ---------------------------------------------------------------- what the output reveals

  /** The trees agree in everything redaction keeps: shape up to tuples and lists, keys, scalars, and
      the text under `credential_ref`; what sensitive keys carry may differ. */
  predicate Agree(c: Redactor, a: Json, b: Json)
    decreases a
  {
    match a
    case Object(fields) =>
      && b.Object? && |b.fields| == |fields|
      && forall i :: 0 <= i < |fields| ==>
                       && b.fields[i].key == fields[i].key
                       && (if fields[i].key == "credential_ref"
                           then c.text(b.fields[i].value) == c.text(fields[i].value)
                           else c.sensitive(fields[i].key) || Agree(c, fields[i].value, b.fields[i].value))
    case List(items) => (b.List? || b.Tuple?) && |b.items| == |items| && forall i :: 0 <= i < |items| ==>
        Agree(c, items[i], b.items[i])
    case Tuple(items) => (b.List? || b.Tuple?) && |b.items| == |items| && forall i :: 0 <= i < |items| ==>
        Agree(c, items[i], b.items[i])
    case _ => a == b
  }

  lemma SameSeq<T>(a: seq<T>, b: seq<T>)
    ensures a == b <==> |a| == |b| && forall i :: 0 <= i < |a| ==> a[i] == b[i]
  {
  }

  /** Secrecy, exactly: two trees have the same redaction if and only if they agree, so the output
      depends on nothing that a sensitive key carries outside `credential_ref`, and on all the rest. */
  lemma {:induction false} RedactionRevealsExactlyAgreement(c: Redactor, a: Json, b: Json)
    ensures Redact(c, a) == Redact(c, b) <==> Agree(c, a, b)
    decreases a
  {
    if a.Object? && b.Object? && |a.fields| == |b.fields| {
      forall i | 0 <= i < |a.fields|
        ensures Redact(c, a.fields[i].value) == Redact(c, b.fields[i].value) <==>
                Agree(c, a.fields[i].value, b.fields[i].value)
      {
        RedactionRevealsExactlyAgreement(c, a.fields[i].value, b.fields[i].value);
      }
      FieldsRevealAgreement(c, a, b);
    } else if (a.List? || a.Tuple?) && (b.List? || b.Tuple?) && |a.items| == |b.items| {
      forall i | 0 <= i < |a.items| ensures Redact(c, a.items[i]) == Redact(c, b.items[i]) <==>
          Agree(c, a.items[i], b.items[i]) {
        RedactionRevealsExactlyAgreement(c, a.items[i], b.items[i]);
      }
      SameSeq(RedactItems(c, a, a.items), RedactItems(c, b, b.items));
    }
  }

  lemma FieldReveals(c: Redactor, a: Json, b: Json, i: nat)
    requires a.Object? && b.Object? && i < |a.fields| && i < |b.fields|
    requires Redact(c, a.fields[i].value) == Redact(c, b.fields[i].value) <==>
             Agree(c, a.fields[i].value, b.fields[i].value)
    ensures RedactField(c, a, a.fields[i]) == RedactField(c, b, b.fields[i]) <==>
            && b.fields[i].key == a.fields[i].key
            && (if a.fields[i].key == "credential_ref" then c.text(b.fields[i].value) == c.text(a.fields[i].value)
                else c.sensitive(a.fields[i].key) || Agree(c, a.fields[i].value, b.fields[i].value))
  {
  }

  lemma FieldsRevealAgreement(c: Redactor, a: Json, b: Json)
    requires a.Object? && b.Object? && |a.fields| == |b.fields|
    requires forall i :: 0 <= i < |a.fields| ==>
               (Redact(c, a.fields[i].value) == Redact(c, b.fields[i].value) <==>
                   Agree(c, a.fields[i].value, b.fields[i].value))
    ensures Redact(c, a) == Redact(c, b) <==> Agree(c, a, b)
  {
    forall i | 0 <= i < |a.fields|
      ensures RedactField(c, a, a.fields[i]) == RedactField(c, b, b.fields[i]) <==>
              && b.fields[i].key == a.fields[i].key
              && (if a.fields[i].key == "credential_ref" then c.text(b.fields[i].value) == c.text(a.fields[i].value)
                  else c.sensitive(a.fields[i].key) || Agree(c, a.fields[i].value, b.fields[i].value))
    {
      FieldReveals(c, a, b, i);
    }
    SameSeq(RedactFields(c, a, a.fields), RedactFields(c, b, b.fields));
  }

  /** The way to the position crosses neither `credential_ref` nor a sensitive key. */
  predicate Open(c: Redactor, v: Json, pos: Position)
    requires IsPosition(v, pos)
    decreases pos
  {
    pos != [] ==>
      && (v.Object? ==> v.fields[pos[0]].key != "credential_ref" && !c.sensitive(v.fields[pos[0]].key))
      && Open(c, Child(v, pos[0]), pos[1..])
  }

  /** Every openly reachable node stays where it is, redacted itself; scalars stay as they are. */
  lemma {:induction false} OpenPositionsArePreserved(c: Redactor, v: Json, pos: Position)
    requires IsPosition(v, pos) && Open(c, v, pos)
    ensures IsPosition(Redact(c, v), pos) && Node(Redact(c, v), pos) == Redact(c, Node(v, pos))
    decreases pos
  {
    if pos != [] {
      assert Child(Redact(c, v), pos[0]) == Redact(c, Child(v, pos[0]));
      OpenPositionsArePreserved(c, Child(v, pos[0]), pos[1..]);
    }
  }
}
