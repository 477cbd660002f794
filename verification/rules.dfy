/**
 Declarative request rules and the generic validator that reads them. A schema is a list of field
 rules in declaration order and allows no other key; the validator reports the first violation
 only, as the object validator does with early abort: the declared fields in declaration order,
 each field's checks in priority order (required, type, empty, pattern), and then the first
 undeclared key in `Object.keys` order.
 */
module Rules {
  import opened Common
  import opened Text
  import opened Patterns
  import opened Json
  import opened Messages

  /** The regular expressions a string rule can demand. */
  datatype Pattern = ObjectIdPattern | DatePattern | NameLengthPattern | EmailPattern

  predicate Matches(p: Pattern, s: string) {
    match p
    case ObjectIdPattern => IsObjectId(s)
    case DatePattern => IsDate(s)
    case NameLengthPattern => IsNameLength(s)
    case EmailPattern => IsEmail(s)
  }

  /**
   A string rule: what it is about (which fixes its messages), whether the value is trimmed
   before it is checked, and the pattern it must match.
   */
  datatype StringRule = StringRule(subject: Subject, trim: bool, pattern: Option<Pattern>)

  /** What a field holds: a string, or an array of strings with a minimum length. */
  datatype Kind =
    | StringKind(rule: StringRule)
    | ArrayKind(item: StringRule, minLength: nat)

  datatype Field = Field(key: string, required: bool, kind: Kind)

  /** The declared fields, in declaration order; any other key is refused. */
  datatype Schema = Schema(fields: seq<Field>)

  function DeclaredKeys(schema: Schema): set<string> {
    set i | 0 <= i < |schema.fields| :: schema.fields[i].key
  }

  /** The string the checks see: trimmed first when the rule converts by trimming. */
  function Converted(r: StringRule, s: string): string {
    if r.trim then Trim(s) else s
  }

  // ---- What conforming means, stated without messages ----

  predicate StringOk(r: StringRule, v: Json) {
    && v.JString?
    && Converted(r, v.str) != []
    && (r.pattern.Some? ==> Matches(r.pattern.value, Converted(r, v.str)))
  }

  predicate KindOk(k: Kind, v: Json) {
    match k
    case StringKind(r) => StringOk(r, v)
    case ArrayKind(item, minLength) =>
      && v.JArray?
      && |v.items| >= minLength
      && forall i :: 0 <= i < |v.items| ==> StringOk(item, v.items[i])
  }

  /** A field conforms when it is absent and optional, or present and of the right shape. */
  predicate FieldOk(f: Field, v: Option<Json>) {
    match v
    case None => !f.required
    case Some(j) => KindOk(f.kind, j)
  }

  predicate FieldsOk(schema: Schema, body: Body) {
    forall i :: 0 <= i < |schema.fields| ==>
      FieldOk(schema.fields[i], Lookup(body, schema.fields[i].key))
  }

  /** Every declared field conforms and the body has no member the schema does not declare. */
  predicate Conforms(schema: Schema, body: Body) {
    && FieldsOk(schema, body)
    && forall j :: 0 <= j < |body| ==> body[j].key in DeclaredKeys(schema)
  }

  // ---- The validator ----

  function StringError(r: StringRule, v: Json): (m: Option<Message>)
    ensures m.None? <==> StringOk(r, v)
  {
    match v
    case JString(s) =>
      var c := Converted(r, s);
      if c == [] then Some(EmptyString(r.subject))
      else if r.pattern.Some? && !Matches(r.pattern.value, c) then Some(Mismatch(r.subject, c))
      else None
    case _ => Some(NotString(r.subject))
  }

  /** The position of the first array element that breaks `r`. */
  function FirstBadItem(r: StringRule, items: seq<Json>): (k: Option<nat>)
    ensures k.None? <==> forall i :: 0 <= i < |items| ==> StringOk(r, items[i])
    ensures k.Some? ==> k.value < |items| && !StringOk(r, items[k.value])
                        && forall i :: 0 <= i < k.value ==> StringOk(r, items[i])
    decreases |items|
  {
    if |items| == 0 then None
    else if !StringOk(r, items[0]) then Some(0)
    else match FirstBadItem(r, items[1..])
      case None => None
      case Some(i) => Some(i + 1)
  }

  /** The message for a present value of field `key`: its type, then its length, then its items. */
  function KindError(key: string, k: Kind, v: Json): (m: Option<Message>)
    ensures m.None? <==> KindOk(k, v)
  {
    match k
    case StringKind(r) => StringError(r, v)
    case ArrayKind(item, minLength) =>
      match v
      case JArray(items) =>
        if |items| < minLength then Some(TooShort(key))
        else (match FirstBadItem(item, items)
          case None => None
          case Some(i) => StringError(item, items[i]))
      case _ => Some(NotArray(key))
  }

  /** The message for one field: missing-but-required first, then the checks of its kind. */
  function FieldError(f: Field, v: Option<Json>): (m: Option<Message>)
    ensures m.None? <==> FieldOk(f, v)
  {
    match v
    case None => if f.required then Some(Required(f.key)) else None
    case Some(j) => KindError(f.key, f.kind, j)
  }

  /** The position of the first declared field that does not conform. */
  function FirstBadField(fields: seq<Field>, body: Body): (k: Option<nat>)
    ensures k.None? <==> forall i :: 0 <= i < |fields| ==> FieldOk(fields[i], Lookup(body, fields[i].key))
    ensures k.Some? ==> && k.value < |fields|
                        && !FieldOk(fields[k.value], Lookup(body, fields[k.value].key))
                        && forall i :: 0 <= i < k.value ==> FieldOk(fields[i], Lookup(body, fields[i].key))
    decreases |fields|
  {
    if |fields| == 0 then None
    else if !FieldOk(fields[0], Lookup(body, fields[0].key)) then Some(0)
    else match FirstBadField(fields[1..], body)
      case None => None
      case Some(i) => Some(i + 1)
  }

  /** The position of the first member, in the order written, whose key is not in `declared`. */
  function FirstWrittenUnknown(body: Body, declared: set<string>): (k: Option<nat>)
    ensures k.None? <==> forall j :: 0 <= j < |body| ==> body[j].key in declared
    ensures k.Some? ==> && k.value < |body| && body[k.value].key !in declared
                        && forall j :: 0 <= j < k.value ==> body[j].key in declared
    decreases |body|
  {
    if |body| == 0 then None
    else if body[0].key !in declared then Some(0)
    else match FirstWrittenUnknown(body[1..], declared)
      case None => None
      case Some(j) => Some(j + 1)
  }

  /** The position of the undeclared array-index member of least numeric value. */
  function LeastUnknownIndex(body: Body, declared: set<string>): (k: Option<nat>)
    ensures k.None? <==> forall j :: 0 <= j < |body| ==> body[j].key in declared || !IsArrayIndex(body[j].key)
    ensures k.Some? ==> && k.value < |body| && body[k.value].key !in declared && IsArrayIndex(body[k.value].key)
                        && forall j :: 0 <= j < |body| && body[j].key !in declared && IsArrayIndex(body[j].key) ==>
                             DecimalValue(body[k.value].key) <= DecimalValue(body[j].key)
    decreases |body|
  {
    if |body| == 0 then None
    else
      var here := body[0].key !in declared && IsArrayIndex(body[0].key);
      match LeastUnknownIndex(body[1..], declared)
      case None => if here then Some(0) else None
      case Some(j) =>
        if here && DecimalValue(body[0].key) <= DecimalValue(body[j + 1].key) then Some(0) else Some(j + 1)
  }

  /**
   The position of the first member whose key is not in `declared`, in the order the object
   validator walks the keys: `Object.keys` order, so array-index keys in ascending numeric order
   before the other keys in the order written.
   */
  function FirstUnknownMember(body: Body, declared: set<string>): (k: Option<nat>)
    ensures k.None? <==> forall j :: 0 <= j < |body| ==> body[j].key in declared
    ensures k.Some? ==> && k.value < |body| && body[k.value].key !in declared
                        && forall j :: 0 <= j < |body| && body[j].key !in declared ==> ListedNoLater(body, k.value, j)
  {
    match LeastUnknownIndex(body, declared)
    case Some(i) => Some(i)
    case None => FirstWrittenUnknown(body, declared)
  }

  /** `schema.validate(body).error.details[0].message`, or nothing when the body conforms. */
  function Validate(schema: Schema, body: Body): (m: Option<Message>)
    ensures m.None? <==> Conforms(schema, body)
  {
    match FirstBadField(schema.fields, body)
    case Some(i) => FieldError(schema.fields[i], Lookup(body, schema.fields[i].key))
    case None =>
      match FirstUnknownMember(body, DeclaredKeys(schema))
      case Some(j) => Some(NotAllowed(body[j].key))
      case None => None
  }

  // ---- First-violation reporting ----

  /** When fields before `i` conform and field `i` does not, field `i`'s message is reported. */
  lemma ValidateReportsFirstBadField(schema: Schema, body: Body, i: nat)
    requires i < |schema.fields|
    requires forall j :: 0 <= j < i ==> FieldOk(schema.fields[j], Lookup(body, schema.fields[j].key))
    requires !FieldOk(schema.fields[i], Lookup(body, schema.fields[i].key))
    ensures Validate(schema, body) == FieldError(schema.fields[i], Lookup(body, schema.fields[i].key))
  {
    var k := FirstBadField(schema.fields, body);
    assert k.Some?;
    if k.value < i {
    } else if k.value > i {
    }
  }

  /** When every declared field conforms, the undeclared key `Object.keys` lists first is reported. */
  lemma ValidateReportsFirstUnknownKey(schema: Schema, body: Body, j: nat)
    requires FieldsOk(schema, body)
    requires j < |body| && body[j].key !in DeclaredKeys(schema)
    requires forall i :: 0 <= i < |body| && body[i].key !in DeclaredKeys(schema) ==> ListedNoLater(body, j, i)
    ensures Validate(schema, body) == Some(NotAllowed(body[j].key))
  {
    var k := FirstUnknownMember(body, DeclaredKeys(schema));
    assert k.Some?;
    ListedOrderTotal(body, j, k.value);
  }

  /** Conformance in two halves, for a schema whose declared keys are given. */
  lemma ConformsWithKeys(schema: Schema, body: Body, keys: set<string>)
    requires DeclaredKeys(schema) == keys
    ensures Conforms(schema, body) <==>
      FieldsOk(schema, body) && forall j :: 0 <= j < |body| ==> body[j].key in keys
  {
  }

  /** `ValidateReportsFirstUnknownKey` for a schema whose declared keys are given. */
  lemma ReportsUnknownKey(schema: Schema, body: Body, keys: set<string>, j: nat)
    requires DeclaredKeys(schema) == keys && FieldsOk(schema, body)
    requires j < |body| && body[j].key !in keys
    requires forall i :: 0 <= i < |body| && body[i].key !in keys ==> ListedNoLater(body, j, i)
    ensures Validate(schema, body) == Some(NotAllowed(body[j].key))
  {
    ValidateReportsFirstUnknownKey(schema, body, j);
  }

  /** An array field reports its first bad element's message once the array itself is fine. */
  lemma ArrayReportsFirstBadItem(key: string, item: StringRule, minLength: nat, items: seq<Json>, i: nat)
    requires |items| >= minLength
    requires i < |items| && !StringOk(item, items[i])
    requires forall j :: 0 <= j < i ==> StringOk(item, items[j])
    ensures KindError(key, ArrayKind(item, minLength), JArray(items)) == StringError(item, items[i])
  {
    var k := FirstBadItem(item, items);
    assert k.Some?;
    if k.value < i {
    } else if k.value > i {
    }
  }

  // ---- Partial (PUT) schemas ----

  /** The same schema with nothing required: the update variant of a creation schema. */
  function Relaxed(schema: Schema): (r: Schema)
    ensures |r.fields| == |schema.fields|
    ensures forall i :: 0 <= i < |r.fields| ==>
      r.fields[i] == schema.fields[i].(required := false)
  {
    Schema(seq(|schema.fields|, i requires 0 <= i < |schema.fields| =>
      schema.fields[i].(required := false)))
  }

  lemma RelaxedDeclaresSameKeys(schema: Schema)
    ensures DeclaredKeys(Relaxed(schema)) == DeclaredKeys(schema)
  {
    var r := Relaxed(schema);
    forall k | k in DeclaredKeys(schema) ensures k in DeclaredKeys(r) {
      var i :| 0 <= i < |schema.fields| && schema.fields[i].key == k;
      assert r.fields[i].key == k;
    }
  }

  /**
   The update variant accepts everything the creation variant accepts, accepts the empty body,
   and differs from it only on absent fields: on a body holding every declared key the two
   report the same thing.
   */
  lemma RelaxedAcceptsMore(schema: Schema, body: Body)
    ensures Conforms(schema, body) ==> Conforms(Relaxed(schema), body)
    ensures Validate(Relaxed(schema), []) == None
    ensures DeclaredKeys(schema) <= Keys(body) ==> Validate(Relaxed(schema), body) == Validate(schema, body)
  {
    var r := Relaxed(schema);
    RelaxedDeclaresSameKeys(schema);
    assert Conforms(r, []);
    if DeclaredKeys(schema) <= Keys(body) {
      forall i | 0 <= i < |schema.fields|
        ensures FieldError(r.fields[i], Lookup(body, r.fields[i].key))
             == FieldError(schema.fields[i], Lookup(body, schema.fields[i].key))
      {
        assert schema.fields[i].key in DeclaredKeys(schema);
        LookupKeys(body, schema.fields[i].key);
      }
      SameFirstBadField(schema.fields, r.fields, body);
    }
  }

  /** Two field lists that agree, position by position, on which fields conform. */
  lemma {:induction false} SameFirstBadField(fs: seq<Field>, rs: seq<Field>, body: Body)
    requires |fs| == |rs|
    requires forall i :: 0 <= i < |fs| ==>
      (FieldOk(rs[i], Lookup(body, rs[i].key)) <==> FieldOk(fs[i], Lookup(body, fs[i].key)))
    ensures FirstBadField(rs, body) == FirstBadField(fs, body)
    decreases |fs|
  {
    if |fs| > 0 {
      forall i | 0 <= i < |fs| - 1
        ensures FieldOk(rs[1..][i], Lookup(body, rs[1..][i].key))
            <==> FieldOk(fs[1..][i], Lookup(body, fs[1..][i].key))
      {
        assert rs[1..][i] == rs[i + 1] && fs[1..][i] == fs[i + 1];
      }
      SameFirstBadField(fs[1..], rs[1..], body);
    }
  }
}
