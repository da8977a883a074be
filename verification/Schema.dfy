/** The declarative field language of CI types and the normalising validator compiled from it. */
module Schema {
  import opened Prelude

  datatype Value =
    | Null
    | Str(s: string)
    | Int(i: int)
    | Num(r: real)
    | Bool(b: bool)
    | List(items: seq<Value>)

  /** The user fields of a configuration item. */
  type Doc = map<string, Value>

  /** Reading an absent field gives null. */
  function Read(d: Doc, k: string): Value {
    if k in d then d[k] else Null
  }

  datatype Scalar = StringType | IntegerType | NumberType | BooleanType | ReferenceType

  datatype FieldType = ScalarField(scalar: Scalar) | ArrayField(element: Scalar)

  datatype FieldSpec = FieldSpec(
    fieldType: FieldType,
    required: bool,
    default: Value,
    minLength: Option<nat>,
    maxLength: Option<nat>,
    minimum: Option<real>,
    maximum: Option<real>,
    enumeration: Option<seq<Value>>,
    minItems: Option<nat>,
    maxItems: Option<nat>)

  /** What a field accepts before optionality is considered. */
  datatype Annotation = Literal(values: seq<Value>) | ListOf(element: Scalar) | Primitive(scalar: Scalar)

  datatype Constraint =
    | Unconstrained
    | Length(min: Option<nat>, max: Option<nat>)
    | Range(ge: Option<real>, le: Option<real>)

  datatype Rule = Rule(annotation: Annotation, constraint: Constraint, required: bool, default: Value)

  type Model = map<string, Rule>

  function Annotate(spec: FieldSpec): Annotation {
    if spec.enumeration.Some? then Literal(spec.enumeration.value)
    else match spec.fieldType
      case ArrayField(element) => ListOf(element)
      case ScalarField(scalar) => Primitive(scalar)
  }

  /** Constraints are gated by type, and an enumeration carries its own. */
  function Constraints(spec: FieldSpec): Constraint {
    if spec.enumeration.Some? then Unconstrained
    else match spec.fieldType
      case ArrayField(_) => Length(spec.minItems, spec.maxItems)
      case ScalarField(StringType) => Length(spec.minLength, spec.maxLength)
      case ScalarField(ReferenceType) => Length(spec.minLength, spec.maxLength)
      case ScalarField(IntegerType) => Range(spec.minimum, spec.maximum)
      case ScalarField(NumberType) => Range(spec.minimum, spec.maximum)
      case ScalarField(BooleanType) => Unconstrained
  }

  function RuleOf(spec: FieldSpec): Rule {
    Rule(Annotate(spec), Constraints(spec), spec.required, if spec.required then Null else spec.default)
  }

  /** Compiles a field map into a model, one field after the other. */
  method CompileModel(fields: map<string, FieldSpec>) returns (model: Model)
    ensures model == map k | k in fields :: RuleOf(fields[k])
  {
    model := map[];
    var todo := fields.Keys;
    while todo != {}
      invariant todo <= fields.Keys
      invariant model == map k | k in fields.Keys - todo :: RuleOf(fields[k])
      decreases |todo|
    {
      var k :| k in todo;
      var spec := fields[k];
      if spec.required {
        model := model[k := Rule(Annotate(spec), Constraints(spec), true, Null)];
      } else {
        model := model[k := Rule(Annotate(spec), Constraints(spec), false, spec.default)];
      }
      todo := todo - {k};
    }
  }

  /** Lax scalar conversion: numbers and booleans convert where no information is lost. */
  function CoerceScalar(t: Scalar, v: Value): Option<Value> {
    match t
    case StringType => if v.Str? then Some(v) else None
    case ReferenceType => if v.Str? then Some(v) else None
    case IntegerType => (
      match v
      case Int(_) => Some(v)
      case Bool(b) => Some(Int(if b then 1 else 0))
      case Num(r) => if r == r.Floor as real then Some(Int(r.Floor)) else None
      case _ => None)
    case NumberType => (
      match v
      case Num(_) => Some(v)
      case Int(i) => Some(Num(i as real))
      case Bool(b) => Some(Num(if b then 1.0 else 0.0))
      case _ => None)
    case BooleanType => (
      match v
      case Bool(_) => Some(v)
      case Int(i) => if i == 0 then Some(Bool(false)) else if i == 1 then Some(Bool(true)) else None
      case Num(r) => if r == 0.0 then Some(Bool(false)) else if r == 1.0 then Some(Bool(true)) else None
      case _ => None)
  }

  function CoerceAll(t: Scalar, vs: seq<Value>): Option<seq<Value>> {
    if vs == [] then Some([])
    else
      var head := CoerceScalar(t, vs[0]);
      var tail := CoerceAll(t, vs[1..]);
      if head.Some? && tail.Some? then Some([head.value] + tail.value) else None
  }

  function CoerceAnnotation(a: Annotation, v: Value): Option<Value> {
    match a
    case Literal(values) => if v in values then Some(v) else None
    case Primitive(t) => CoerceScalar(t, v)
    case ListOf(t) =>
      if !v.List? then None
      else
        var vs := CoerceAll(t, v.items);
        if vs.Some? then Some(List(vs.value)) else None
  }

  predicate AtLeast(bound: Option<real>, r: real) {
    bound.Some? ==> bound.value <= r
  }

  predicate AtMost(bound: Option<real>, r: real) {
    bound.Some? ==> r <= bound.value
  }

  predicate InLength(c: Constraint, n: nat)
    requires c.Length?
  {
    (c.min.Some? ==> c.min.value <= n) && (c.max.Some? ==> n <= c.max.value)
  }

  predicate Meets(c: Constraint, v: Value) {
    match c
    case Unconstrained => true
    case Length(_, _) => (v.Str? ==> InLength(c, |v.s|)) && (v.List? ==> InLength(c, |v.items|))
    case Range(ge, le) =>
      && (v.Int? ==> AtLeast(ge, v.i as real) && AtMost(le, v.i as real))
      && (v.Num? ==> AtLeast(ge, v.r) && AtMost(le, v.r))
  }

  /** The normal form of a supplied value, or nothing when the field rejects it. */
  function Coerce(rule: Rule, v: Value): Option<Value> {
    if !rule.required && v == Null then Some(Null)
    else
      var w := CoerceAnnotation(rule.annotation, v);
      if w.Some? && Meets(rule.constraint, w.value) then w else None
  }

  function FieldValue(rule: Rule, payload: Doc, k: string): Option<Value> {
    if k in payload then Coerce(rule, payload[k])
    else if rule.required then None
    else Some(rule.default)  // a default is taken as it stands, it is not validated
  }

  /** Validates and normalises: unknown fields are rejected, absent ones get their default. */
  function Validate(model: Model, payload: Doc): Option<Doc> {
    if payload.Keys <= model.Keys && forall k | k in model :: FieldValue(model[k], payload, k).Some?
    then Some(map k | k in model :: FieldValue(model[k], payload, k).value)
    else None
  }

  // ------------------------------------------------------------ idempotence

  lemma {:induction false} CoerceAllIdempotent(t: Scalar, vs: seq<Value>)
    requires CoerceAll(t, vs).Some?
    ensures CoerceAll(t, CoerceAll(t, vs).value) == CoerceAll(t, vs)
  {
    if vs != [] {
      CoerceAllIdempotent(t, vs[1..]);
      var ws := CoerceAll(t, vs).value;
      assert ws[1..] == CoerceAll(t, vs[1..]).value;
    }
  }

  /** A normal form is its own normal form. */
  lemma CoerceIdempotent(rule: Rule, v: Value)
    requires Coerce(rule, v).Some?
    ensures Coerce(rule, Coerce(rule, v).value) == Coerce(rule, v)
  {
    if rule.annotation.ListOf? && v.List? {
      CoerceAllIdempotent(rule.annotation.element, v.items);
    }
  }

  predicate OfScalar(t: Scalar, v: Value) {
    match t
    case StringType => v.Str?
    case ReferenceType => v.Str?
    case IntegerType => v.Int?
    case NumberType => v.Num?
    case BooleanType => v.Bool?
  }

  predicate OfAnnotation(a: Annotation, v: Value) {
    match a
    case Literal(values) => v in values
    case Primitive(t) => OfScalar(t, v)
    case ListOf(t) => v.List? && forall x | x in v.items :: OfScalar(t, x)
  }

  /** What a field declares about its values: the type and constraint, or null where the field is optional. */
  predicate Conforms(rule: Rule, v: Value) {
    (!rule.required && v == Null) || (OfAnnotation(rule.annotation, v) && Meets(rule.constraint, v))
  }

  lemma {:induction false} ConformingItems(t: Scalar, vs: seq<Value>)
    ensures CoerceAll(t, vs) == Some(vs) <==> forall x | x in vs :: OfScalar(t, x)
  {
    if vs != [] {
      var rest := vs[1..];
      ConformingItems(t, rest);
      assert forall x :: x in vs <==> x == vs[0] || x in rest;
      assert CoerceScalar(t, vs[0]) == Some(vs[0]) <==> OfScalar(t, vs[0]);
      var head, tail := CoerceScalar(t, vs[0]), CoerceAll(t, rest);
      if head.Some? && tail.Some? {
        var all := [head.value] + tail.value;
        assert all[0] == head.value && all[1..] == tail.value;
        assert all == vs <==> head.value == vs[0] && tail.value == rest;
      }
    }
  }

  /**
   The normal forms of a field are exactly the values that conform to its declaration, so nothing conforming is
   altered.
   */
  lemma NormalFormsConform(rule: Rule, v: Value)
    ensures Coerce(rule, v) == Some(v) <==> Conforms(rule, v)
  {
    if rule.annotation.ListOf? && v.List? {
      ConformingItems(rule.annotation.element, v.items);
    }
  }

  /**
   A validated document has exactly the declared fields; unknown fields and missing required ones are rejected, and
   every supplied value has become one that conforms.
   */
  lemma ValidatedConforms(model: Model, payload: Doc)
    requires Validate(model, payload).Some?
    ensures var w := Validate(model, payload).value;
      && w.Keys == model.Keys && payload.Keys <= model.Keys
      && (forall k | k in model && model[k].required :: k in payload)
      && (forall k | k in payload ::
            Conforms(model[k], w[k]) && (Conforms(model[k], payload[k]) ==> w[k] == payload[k]))
      && (forall k | k in model && k !in payload :: w[k] == model[k].default)
  {
    forall k | k in payload
      ensures var w := Validate(model, payload).value;
        Conforms(model[k], w[k]) && (Conforms(model[k], payload[k]) ==> w[k] == payload[k])
    {
      assert FieldValue(model[k], payload, k).Some?;
      CoerceIdempotent(model[k], payload[k]);
      NormalFormsConform(model[k], payload[k]);
      NormalFormsConform(model[k], Validate(model, payload).value[k]);
    }
    assert forall k | k in model :: FieldValue(model[k], payload, k).Some?;
  }

  /** The default of an optional field is null or already in the field's normal form. */
  predicate GoodDefault(rule: Rule) {
    rule.required || Coerce(rule, rule.default) == Some(rule.default)
  }

  predicate GoodDefaults(model: Model) {
    forall k | k in model :: GoodDefault(model[k])
  }

  /** Validating a validated document changes nothing, whatever payload it came from. */
  ghost predicate Stable(model: Model) {
    forall payload :: Validate(model, payload).Some? ==>
      Validate(model, Validate(model, payload).value) == Validate(model, payload)
  }

  /** Overlaying data on a stored document and then again on the result gives the same normal form. */
  lemma OverlayAgain(model: Model, current: Doc, data: Doc)
    requires GoodDefaults(model)
    requires Validate(model, current + data).Some?
    ensures var w := Validate(model, current + data).value;
      && w.Keys == model.Keys
      && current + w == w
      && Validate(model, w) == Some(w)
      && Validate(model, w + data) == Some(w)
  {
    var w := Validate(model, current + data).value;
    forall k | k in model
      ensures FieldValue(model[k], w, k) == Some(w[k]) && FieldValue(model[k], w + data, k) == Some(w[k])
    {
      if k in current + data {
        CoerceIdempotent(model[k], (current + data)[k]);
      }
    }
    assert Validate(model, w).value == w;
    assert Validate(model, w + data).value == w;
  }

  /** The model accepts no document at all: some required field accepts no value. */
  ghost predicate AcceptsNothing(model: Model) {
    forall payload :: Validate(model, payload).None?
  }

  lemma BadDefaultUnstable(model: Model, accepted: Doc, k: string)
    requires Validate(model, accepted).Some? && k in model && !GoodDefault(model[k])
    ensures !Stable(model)
  {
    var p := accepted - {k};
    assert forall j | j in model && j != k :: FieldValue(model[j], p, j) == FieldValue(model[j], accepted, j);
    var v := Validate(model, p).value;
    assert FieldValue(model[k], v, k) != Some(v[k]);
    assert Validate(model, v) != Some(v);
  }

  /** Re-validation is stable exactly when every default satisfies its own field, or no document is accepted anyway. */
  lemma StableIffGoodDefaults(model: Model)
    ensures Stable(model) <==> GoodDefaults(model) || AcceptsNothing(model)
  {
    if GoodDefaults(model) {
      forall payload | Validate(model, payload).Some?
        ensures Validate(model, Validate(model, payload).value) == Validate(model, payload)
      {
        OverlayAgain(model, map[], payload);
        assert map[] + payload == payload;
      }
    } else if !AcceptsNothing(model) {
      var k :| k in model && !GoodDefault(model[k]);
      var accepted :| Validate(model, accepted).Some?;
      BadDefaultUnstable(model, accepted, k);
    }
  }

  // ------------------------------------------------------------ storing and re-reading

  /** The field accepts its own default, if it has one that is used. */
  predicate AcceptsDefault(rule: Rule) {
    rule.required || Coerce(rule, rule.default).Some?
  }

  predicate AcceptsDefaults(model: Model) {
    forall k | k in model :: AcceptsDefault(model[k])
  }

  /** Every default that a document leaves to be filled in is accepted by its field. */
  predicate FillsWell(model: Model, d: Doc) {
    forall k | k in model && k !in d :: AcceptsDefault(model[k])
  }

  /** Field by field: what a stored value and the data overlaid on it again normalise to. */
  lemma FieldAgain(model: Model, d: Doc, data: Doc, k: string)
    requires k in model && Validate(model, d).Some? && data.Keys <= d.Keys && forall j | j in data :: d[j] == data[j]
    ensures var w := Validate(model, d).value;
      && FieldValue(model[k], w + data, k) == FieldValue(model[k], w, k)
      && (FieldValue(model[k], w, k).Some? <==> k in d || AcceptsDefault(model[k]))
  {
    assert FieldValue(model[k], d, k).Some?;
    if k in d {
      CoerceIdempotent(model[k], d[k]);
    }
  }

  /**
   Data overlaid on a stored document, stored, and overlaid once more is found unchanged exactly when the defaults
   filled in are accepted.
   */
  lemma OverlaidAgainIff(model: Model, current: Doc, data: Doc)
    requires Validate(model, current + data).Some?
    ensures var w := Validate(model, current + data).value;
      && current + w == w
      && Validate(model, w + data) == Validate(model, w)
      && (Validate(model, w).Some? <==> FillsWell(model, current + data))
  {
    var d := current + data;
    var w := Validate(model, d).value;
    forall k | k in model
      ensures FieldValue(model[k], w + data, k) == FieldValue(model[k], w, k)
      ensures FieldValue(model[k], w, k).Some? <==> k in d || AcceptsDefault(model[k])
    {
      FieldAgain(model, d, data, k);
    }
    assert (w + data).Keys == w.Keys == model.Keys;
    if Validate(model, w).Some? {
      assert Validate(model, w + data).value == Validate(model, w).value;
    }
  }
}
