/**
 * The JSON-schema subset checker: `#testSchema` (is a schema well formed),
 * `#matchAgainst` (does a value satisfy a schema), the constructor and
 * `validate`. A schema and a validated value are both JSON values; the
 * regular expression of a `pattern` is an abstract test.
 */
module SchemaValidator {
  import opened Wrappers
  import opened Json
  import Strings

  /** What a schema check or a validation throws. */
  datatype Error =
    | Validation(text: string)  // SchemaValidator.ValidationError(text)
    | Invalid(text: string)     // SchemaValidator.InvalidError(text)
    | TypeError                 // a property read on null or undefined, or `for...of` over a non-iterable

  /** The message of a thrown ValidationError or InvalidError. */
  function Message(e: Error): (m: string)
    requires !e.TypeError?
    ensures e.Validation? ==> Strings.StartsWith(m, "Schema validation failed: ") && m[26..] == e.text
    ensures e.Invalid? ==> m == e.text
  {
    match e
    case Validation(t) => "Schema validation failed: " + t
    case Invalid(t) => t
  }

  datatype Outcome = Pass | Fail(error: Error)

  /** `RegExp(pattern).test(value)`. */
  type PatternTest = (Json, string) -> bool

  /** `a[key]`, where reading from undefined or null throws. */
  function Prop(a: Access, key: string): (r: Access)
    ensures r.Throws? <==> !a.Defined? || a.value.Null?
  {
    if a.Defined? then Get(a.value, key) else Throws
  }

  /** The text of a type mismatch. */
  function Mismatch(expected: string, found: string): string {
    "Expected " + expected + " but found " + found
  }

  /** The text of a missing required property. */
  function MissingRequired(prop: string): string {
    "Expected required property " + prop + " doesn't exist"
  }

  /** The text a template literal makes of a property value. */
  function Display(a: Access): string {
    if a.Defined? then ToText(a.value) else "undefined"
  }

  /** `for (x of v)`: the elements of an array, the characters of a string; anything else is not iterable. */
  function Iterate(v: Json): (r: Option<seq<Json>>)
    ensures r.Some? <==> v.Arr? || v.Str?
    ensures v.Arr? ==> r == Some(v.items)
  {
    match v
    case Arr(xs) => Some(xs)
    case Str(s) => Some(seq(|s|, i requires 0 <= i < |s| => Str([s[i]])))
    case _ => None
  }

  const ARRAY: Access := Defined(Str("array"))
  const OBJECT: Access := Defined(Str("object"))
  const STRING: Access := Defined(Str("string"))

  // ----- Validation: #matchAgainst -----

  /**
   * `#matchAgainst(ref, tested)`. An array schema against an array checks
   * the items and nothing else; otherwise the schema's type must equal the
   * value's `typeof`, an object schema checks its required properties and
   * every entry, and a string schema with a pattern tests it. A validation
   * never throws an InvalidError.
   */
  function MatchAgainst(ref: Access, tested: Json, test: PatternTest): (r: Outcome)
    ensures r.Fail? ==> !r.error.Invalid?
    ensures r.Pass? && Prop(ref, "type") == ARRAY ==> tested.Arr?
    ensures r.Pass? && Prop(ref, "type") != ARRAY ==> Prop(ref, "type") == Defined(Str(TypeOf(tested)))
    ensures r.Pass? && Prop(ref, "type") == STRING && Prop(ref, "pattern").IsTruthy()
      ==> tested.Str? && test(Prop(ref, "pattern").value, tested.s)
    decreases tested, 3, 0
  {
    var ty := Prop(ref, "type");
    if ty.Throws? then Fail(TypeError)
    else if ty == ARRAY && tested.Arr? then
      MatchItems(Prop(ref, "items"), tested, 0, test)
    else if ty != Defined(Str(TypeOf(tested))) then
      Fail(Validation(Mismatch(Display(ty), TypeOf(tested))))
    else if ty == OBJECT then
      MatchObject(ref, tested, test)
    else if ty == STRING && Prop(ref, "pattern").IsTruthy() && !test(Prop(ref, "pattern").value, tested.s) then
      Fail(Validation("Value \"" + tested.s + "\" doesn't match pattern"))
    else Pass
  }

  /** The loop over the items of an array value, from item i on; the first failure is thrown. */
  function MatchItems(items: Access, arr: Json, i: nat, test: PatternTest): (r: Outcome)
    requires arr.Arr? && i <= |arr.items|
    ensures r.Fail? ==> !r.error.Invalid?
    decreases arr, 0, |arr.items| - i
  {
    if i == |arr.items| then Pass
    else
      var r := MatchAgainst(items, arr.items[i], test);
      if r.Fail? then r else MatchItems(items, arr, i + 1, test)
  }

  /** The object branch: the required properties, then every entry of the value. */
  function MatchObject(ref: Access, tested: Json, test: PatternTest): (r: Outcome)
    requires TypeOf(tested) == "object"
    ensures r.Fail? ==> !r.error.Invalid?
    decreases tested, 2, 0
  {
    var req := Prop(ref, "required");
    var checked :=
      if req.IsTruthy() then
        (match Iterate(req.value)
         case None => Fail(TypeError)
         case Some(ps) => CheckRequired(ps, tested))
      else Pass;
    if checked.Fail? then checked
    else if tested.Null? then Fail(TypeError)
    else MatchEntries(ref, tested, Prop(ref, "additionalProperties") == Defined(Bool(true)), 0, test)
  }

  /** The required-property loop: each listed property must be truthy in the value. */
  function CheckRequired(ps: seq<Json>, tested: Json): (r: Outcome)
    ensures r.Fail? ==> r.error.TypeError? || r.error.Validation?
    ensures r.Pass? ==> forall i :: 0 <= i < |ps| ==> Get(tested, ToText(ps[i])).IsTruthy()
  {
    if ps == [] then Pass
    else
      var v := Get(tested, ToText(ps[0]));
      if v.Throws? then Fail(TypeError)
      else if !v.IsTruthy() then Fail(Validation(MissingRequired(ToText(ps[0]))))
      else CheckRequired(ps[1..], tested)
  }

  /**
   * One turn of the entry loop, for entry j: a key with a truthy property
   * schema is matched against it; any other key is skipped when
   * `additional` and rejected otherwise.
   */
  function EntryOutcome(ref: Access, tested: Json, additional: bool, j: nat, test: PatternTest): (r: Outcome)
    requires (tested.Arr? || tested.Obj?) && j < |Entries(tested)|
    ensures r.Fail? ==> !r.error.Invalid?
    decreases tested, 0, 0
  {
    var e := Entries(tested)[j];
    var sub := Prop(Prop(ref, "properties"), e.0);
    if sub.Throws? then Fail(TypeError)
    else if !sub.IsTruthy() then
      if additional then Pass else Fail(Validation("Unexpected property \"" + e.0 + "\""))
    else MatchAgainst(sub, e.1, test)
  }

  /** The loop over `Object.entries(tested)` from entry i on. */
  function MatchEntries(ref: Access, tested: Json, additional: bool, i: nat, test: PatternTest): (r: Outcome)
    requires (tested.Arr? || tested.Obj?) && i <= |Entries(tested)|
    ensures r.Fail? ==> !r.error.Invalid?
    decreases tested, 1, |Entries(tested)| - i
  {
    if i == |Entries(tested)| then Pass
    else
      var r := EntryOutcome(ref, tested, additional, i, test);
      if r.Fail? then r else MatchEntries(ref, tested, additional, i + 1, test)
  }

  // ----- Properties of validation -----

  lemma {:induction false} MatchItemsAll(items: Access, arr: Json, i: nat, test: PatternTest)
    requires arr.Arr? && i <= |arr.items|
    ensures MatchItems(items, arr, i, test).Pass?
      <==> forall j :: i <= j < |arr.items| ==> MatchAgainst(items, arr.items[j], test).Pass?
    decreases |arr.items| - i
  {
    if i < |arr.items| {
      MatchItemsAll(items, arr, i + 1, test);
      var r := MatchAgainst(items, arr.items[i], test);
      var rest := MatchItems(items, arr, i + 1, test);
      assert MatchItems(items, arr, i, test) == if r.Fail? then r else rest;
      if r.Pass? && rest.Pass? {
        forall j | i <= j < |arr.items| ensures MatchAgainst(items, arr.items[j], test).Pass? {
          if j == i { assert MatchAgainst(items, arr.items[j], test) == r; }
        }
      }
    }
  }

  /** An array schema against an array value: it passes exactly when every item passes `items`. */
  lemma ArraySchemaIff(ref: Access, xs: seq<Json>, test: PatternTest)
    requires Prop(ref, "type") == ARRAY
    ensures MatchAgainst(ref, Arr(xs), test).Pass?
      <==> forall j :: 0 <= j < |xs| ==> MatchAgainst(Prop(ref, "items"), xs[j], test).Pass?
  {
    MatchItemsAll(Prop(ref, "items"), Arr(xs), 0, test);
  }

  /** Any other value against an array schema is a type error naming both types. */
  lemma NonArrayNeverArray(ref: Access, tested: Json, test: PatternTest)
    requires Prop(ref, "type") == ARRAY && !tested.Arr?
    ensures MatchAgainst(ref, tested, test) == Fail(Validation(Mismatch("array", TypeOf(tested))))
  {
    assert Display(ARRAY) == "array";
  }

  lemma {:induction false} MatchEntriesAll(ref: Access, tested: Json, additional: bool, i: nat, test: PatternTest)
    requires (tested.Arr? || tested.Obj?) && i <= |Entries(tested)|
    ensures MatchEntries(ref, tested, additional, i, test).Pass?
      <==> forall j :: i <= j < |Entries(tested)| ==> EntryOutcome(ref, tested, additional, j, test).Pass?
    decreases |Entries(tested)| - i
  {
    if i < |Entries(tested)| {
      MatchEntriesAll(ref, tested, additional, i + 1, test);
      var r := EntryOutcome(ref, tested, additional, i, test);
      var rest := MatchEntries(ref, tested, additional, i + 1, test);
      assert MatchEntries(ref, tested, additional, i, test) == if r.Fail? then r else rest;
      if r.Pass? && rest.Pass? {
        forall j | i <= j < |Entries(tested)| ensures EntryOutcome(ref, tested, additional, j, test).Pass? {
          if j == i { assert EntryOutcome(ref, tested, additional, j, test) == r; }
        }
      } else if r.Fail? {
        assert !EntryOutcome(ref, tested, additional, i, test).Pass?;
      } else {
        var k :| i + 1 <= k < |Entries(tested)| && !EntryOutcome(ref, tested, additional, k, test).Pass?;
      }
    }
  }

  /**
   * An object schema passes an object or array value exactly when its
   * required properties are truthy in it and every entry is acceptable:
   * with `additionalProperties === true` unknown keys are ignored,
   * otherwise every key must name a truthy property schema.
   */
  lemma ObjectSchemaIff(ref: Access, tested: Json, test: PatternTest)
    requires Prop(ref, "type") == OBJECT && (tested.Arr? || tested.Obj?)
    requires var req := Prop(ref, "required"); !req.IsTruthy() || Iterate(req.value).Some?
    ensures var req := Prop(ref, "required");
      var additional := Prop(ref, "additionalProperties") == Defined(Bool(true));
      MatchAgainst(ref, tested, test).Pass? <==>
        (req.IsTruthy() ==>
           forall k :: 0 <= k < |Iterate(req.value).value| ==> Get(tested, ToText(Iterate(req.value).value[k])).IsTruthy())
        && forall j :: 0 <= j < |Entries(tested)| ==> EntryOutcome(ref, tested, additional, j, test).Pass?
  {
    var req := Prop(ref, "required");
    var additional := Prop(ref, "additionalProperties") == Defined(Bool(true));
    MatchEntriesAll(ref, tested, additional, 0, test);
    if req.IsTruthy() {
      RequiredIff(Iterate(req.value).value, tested);
    }
  }

  lemma {:induction false} RequiredIff(ps: seq<Json>, tested: Json)
    ensures CheckRequired(ps, tested).Pass? <==> forall i :: 0 <= i < |ps| ==> Get(tested, ToText(ps[i])).IsTruthy()
  {
    if ps != [] {
      RequiredIff(ps[1..], tested);
      if Get(tested, ToText(ps[0])).IsTruthy() && forall i :: 0 <= i < |ps| - 1 ==> Get(tested, ToText(ps[1..][i])).IsTruthy() {
        forall i | 0 <= i < |ps| ensures Get(tested, ToText(ps[i])).IsTruthy() {
          if i > 0 { assert ps[i] == ps[1..][i - 1]; }
        }
      }
    }
  }

  /** A null value never satisfies an object schema: its properties cannot be read. */
  lemma NullAgainstObject(ref: Access, test: PatternTest)
    requires Prop(ref, "type") == OBJECT
    ensures MatchAgainst(ref, Null, test) == Fail(TypeError)
  {
    var req := Prop(ref, "required");
    if req.IsTruthy() && Iterate(req.value).Some? {
      var ps := Iterate(req.value).value;
      if ps != [] {
        assert Get(Null, ToText(ps[0])).Throws?;
      }
    }
  }

  /** The schema { type: "object", required: ["a"], properties: { a: { type: "number" } } }. */
  const RequireA: Json := Obj([("type", Str("object")), ("required", Arr([Str("a")])),
                                ("properties", Obj([("a", Obj([("type", Str("number"))]))]))])

  /** A required property holding false, 0 or "" is reported missing. */
  lemma FalsyRequiredIsMissing(v: Json, test: PatternTest)
    requires v == Bool(false) || v == Num(0) || v == Str("")
    ensures MatchAgainst(Defined(RequireA), Obj([("a", v)]), test)
      == Fail(Validation(MissingRequired("a")))
  {
    var ref := Defined(RequireA);
    var t := Obj([("a", v)]);
    var missing := Fail(Validation(MissingRequired("a")));
    assert Prop(ref, "type") == OBJECT;
    assert Prop(ref, "required") == Defined(Arr([Str("a")]));
    assert ToText(Str("a")) == "a";
    assert Get(t, "a") == Defined(v);
    assert CheckRequired([Str("a")], t) == missing;
    assert MatchObject(ref, t, test) == missing;
  }

  /** The schema { type: "object", properties: {}, additionalProperties: true }. */
  const AnyObject: Json := Obj([("type", Str("object")), ("properties", Obj([])), ("additionalProperties", Bool(true))])

  /** An array passes the type test of an object schema: with no known keys it is accepted whatever it holds. */
  lemma ArrayIsObject(xs: seq<Json>, test: PatternTest)
    ensures MatchAgainst(Defined(AnyObject), Arr(xs), test) == Pass
  {
    var ref := Defined(AnyObject);
    assert Prop(ref, "type") == OBJECT;
    assert Prop(ref, "required") == Undefined;
    assert Prop(ref, "properties") == Defined(Obj([]));
    assert Prop(ref, "additionalProperties") == Defined(Bool(true));
    forall j | 0 <= j < |Entries(Arr(xs))| ensures EntryOutcome(ref, Arr(xs), true, j, test).Pass? {
      assert Prop(Prop(ref, "properties"), Entries(Arr(xs))[j].0) == Undefined;
    }
    MatchEntriesAll(ref, Arr(xs), true, 0, test);
  }

  // ----- Schema checking: #testSchema -----

  const ACCEPTED: set<Access> := {ARRAY, OBJECT, STRING, Defined(Str("boolean")), Defined(Str("number"))}

  /**
   * `#testSchema(obj)`: only the types array, object, string, boolean and
   * number are accepted; an array schema needs an object `items`, which is
   * checked in turn; an object schema needs an object `properties`, and only
   * the schemas of its required properties are checked. Schema checking
   * throws InvalidErrors and TypeErrors only.
   */
  function TestSchema(obj: Json): (r: Outcome)
    ensures r.Pass? ==> obj.Obj? && Get(obj, "type") in ACCEPTED
    ensures r.Fail? ==> !r.error.Validation?
    decreases obj, 1, 0
  {
    if obj.Null? then Fail(TypeError)
    else
      var ty := Get(obj, "type");
      if ty == ARRAY then
        var items := Get(obj, "items");
        if !items.IsTruthy() then Fail(Invalid("Expected property \"items\""))
        else if !items.value.Obj? then Fail(Invalid("Property \"items\" is not an object"))
        else TestSchema(items.value)
      else if ty == OBJECT then
        var req := Get(obj, "required");
        var required := if req.IsTruthy() then req.value else Arr([]);
        var props := Get(obj, "properties");
        if !props.IsTruthy() then Fail(Invalid("Expected property \"properties\""))
        else if !props.value.Obj? then Fail(Invalid("Property \"properties\" is not an object"))
        else
          match Iterate(required)
          case None => Fail(TypeError)
          case Some(ps) => CheckRequiredSchemas(props.value, ps, 0)
      else if ty in {STRING, Defined(Str("boolean")), Defined(Str("number"))} then Pass
      else Fail(Invalid("invalid schema"))
  }

  /** `#checkSchemaValidityForObject`'s loop: each required property names a truthy, well-formed schema. */
  function CheckRequiredSchemas(props: Json, ps: seq<Json>, i: nat): (r: Outcome)
    requires props.Obj? && i <= |ps|
    ensures r.Fail? ==> !r.error.Validation?
    decreases props, 0, |ps| - i
  {
    if i == |ps| then Pass
    else
      var sub := Get(props, ToText(ps[i]));
      if !sub.IsTruthy() then Fail(Invalid("Required property \"" + ToText(ps[i]) + "\" is not defined"))
      else
        match TestSchema(sub.value)
        case Fail(e) => Fail(e)
        case Pass => CheckRequiredSchemas(props, ps, i + 1)
  }

  lemma {:induction false} RequiredSchemasAll(props: Json, ps: seq<Json>, i: nat)
    requires props.Obj? && i <= |ps|
    ensures CheckRequiredSchemas(props, ps, i).Pass? <==>
      forall j :: i <= j < |ps| ==> Get(props, ToText(ps[j])).IsTruthy() && TestSchema(Get(props, ToText(ps[j])).value).Pass?
    decreases |ps| - i
  {
    if i < |ps| {
      RequiredSchemasAll(props, ps, i + 1);
    }
  }

  /** A well-formed array schema has an object `items` that is itself well formed. */
  lemma ArraySchemaShape(obj: Json)
    requires TestSchema(obj).Pass? && Get(obj, "type") == ARRAY
    ensures Get(obj, "items").Defined? && Get(obj, "items").value.Obj?
    ensures TestSchema(Get(obj, "items").value).Pass?
  {
  }

  /**
   * A well-formed object schema has an object `properties`, and exactly the
   * schemas of its required properties are truthy and well formed.
   */
  lemma ObjectSchemaShape(obj: Json)
    requires TestSchema(obj).Pass? && Get(obj, "type") == OBJECT
    ensures Get(obj, "properties").Defined? && Get(obj, "properties").value.Obj?
    ensures var req := Get(obj, "required");
      req.IsTruthy() ==>
        Iterate(req.value).Some? &&
        forall j :: 0 <= j < |Iterate(req.value).value| ==>
          var sub := Get(Get(obj, "properties").value, ToText(Iterate(req.value).value[j]));
          sub.IsTruthy() && TestSchema(sub.value).Pass?
  {
    var req := Get(obj, "required");
    var required := if req.IsTruthy() then req.value else Arr([]);
    RequiredSchemasAll(Get(obj, "properties").value, Iterate(required).value, 0);
  }

  /** The schema { type: "object", properties: { a: { type: "date" } } }, whose property schema is malformed. */
  const LooseProperty: Json := Obj([("type", Str("object")), ("properties", Obj([("a", Obj([("type", Str("date"))]))]))])

  /** Property schemas of properties that are not required are not checked. */
  lemma UnrequiredPropertyNotChecked()
    ensures TestSchema(LooseProperty) == Pass
    ensures TestSchema(Obj([("type", Str("date"))])) == Fail(Invalid("invalid schema"))
  {
    assert Get(LooseProperty, "type") == OBJECT;
    assert Get(LooseProperty, "required") == Undefined;
    assert Get(Obj([("type", Str("date"))]), "type") == Defined(Str("date"));
  }

  // ----- The validator object -----

  /** A SchemaValidator instance: its private `#schema`. */
  datatype Validator = Validator(schema: Json)

  datatype Construction = Constructed(validator: Validator) | Rejected(error: Error)

  /**
   * `new SchemaValidator(obj, safe)`: with the private safe token (`safe`)
   * the schema is taken as it is; otherwise a deep copy is checked first,
   * and a malformed schema throws. The JSON round trip of a JSON value is
   * the value itself.
   */
  function Construct(obj: Json, safe: bool): (r: Construction)
    ensures r.Constructed? <==> safe || TestSchema(obj).Pass?
    ensures r.Constructed? ==> r.validator.schema == obj
    ensures r.Rejected? ==> !r.error.Validation?
  {
    if safe then Constructed(Validator(obj))
    else
      match TestSchema(obj)
      case Pass => Constructed(Validator(obj))
      case Fail(e) => Rejected(e)
  }

  /** `validate(obj)`: true, or a thrown error that is a ValidationError (prefixed message) or a TypeError. */
  function Validate(v: Validator, value: Json, test: PatternTest): (r: Outcome)
    ensures r.Fail? ==> r.error.TypeError? || Strings.StartsWith(Message(r.error), "Schema validation failed: ")
  {
    MatchAgainst(Defined(v.schema), value, test)
  }
}
