/**
 * The validation library every form relies on: a `z.object` schema is a list
 * of named field rules, and parsing a candidate checks each field, collecting
 * one message per failing field or, when all pass, producing the parsed data
 * (only the schema's fields, with defaults filled in).
 */
module Zod {
  import opened Common

  /** A form or record value: text from an input, a number (`valueAsNumber`), or a checkbox flag. */
  datatype Field = Text(s: string) | Number(x: real) | Flag(b: bool)

  /** A candidate record or a record from the server: field name to value; an absent key is `undefined`. */
  type Values = map<string, Field>

  /** The rule kinds the forms use. */
  datatype Rule =
    | StringMin(min: nat, message: string)                                  // z.string().min(n, message)
    | StringEmail(message: string)                                          // z.string().email(message)
    | NumberMin(lo: real, message: string)                                  // z.number().min(lo, message)
    | NumberRange(lo: real, loMessage: string, hi: real, hiMessage: string) // z.number().min(..).max(..)
    | Enum(options: seq<string>, message: string)                           // z.enum(options, { errorMap })
    | BooleanDefault(default: bool)                                         // z.boolean().default(d)

  datatype Entry = Entry(name: string, rule: Rule)

  /** A `z.object({...})` shape, one entry per key. */
  type Schema = seq<Entry>

  /** The outcome of `safeParse` as the form resolver reports it. */
  datatype Parsed = Valid(data: Values) | Invalid(errors: map<string, string>)

  /** zod's message for a missing value. */
  const Required: string := "Required"

  /** The email predicate passed to schemas that use no email rule. */
  const NoEmail: string -> bool := (s: string) => false

  function KindName(f: Field): string {
    match f
    case Text(_) => "string"
    case Number(_) => "number"
    case Flag(_) => "boolean"
  }

  /** zod's message for a value of the wrong type. */
  function InvalidType(expected: string, f: Field): string {
    "Expected " + expected + ", received " + KindName(f)
  }

  function Lookup(v: Values, name: string): Option<Field> {
    if name in v then Some(v[name]) else None
  }

  /** Checks one field value against its rule: the parsed value or the message shown under the field. */
  function Check(rule: Rule, f: Option<Field>, isEmail: string -> bool): Result<Field, string> {
    match rule
    case StringMin(n, message) =>
      (match f
       case None => Failure(Required)
       case Some(Text(s)) => if |s| >= n then Success(Text(s)) else Failure(message)
       case Some(other) => Failure(InvalidType("string", other)))
    case StringEmail(message) =>
      (match f
       case None => Failure(Required)
       case Some(Text(s)) => if isEmail(s) then Success(Text(s)) else Failure(message)
       case Some(other) => Failure(InvalidType("string", other)))
    case NumberMin(lo, message) =>
      (match f
       case None => Failure(Required)
       case Some(Number(x)) => if x >= lo then Success(Number(x)) else Failure(message)
       case Some(other) => Failure(InvalidType("number", other)))
    case NumberRange(lo, loMessage, hi, hiMessage) =>
      (match f
       case None => Failure(Required)
       case Some(Number(x)) =>
         if x < lo then Failure(loMessage) else if x > hi then Failure(hiMessage) else Success(Number(x))
       case Some(other) => Failure(InvalidType("number", other)))
    case Enum(options, message) =>
      // the errorMap replaces every issue's message, including a missing or mistyped value
      (match f
       case Some(Text(s)) => if s in options then Success(Text(s)) else Failure(message)
       case _ => Failure(message))
    case BooleanDefault(d) =>
      (match f
       case None => Success(Flag(d))
       case Some(Flag(b)) => Success(Flag(b))
       case Some(other) => Failure(InvalidType("boolean", other)))
  }

  /** The values a rule accepts, stated without messages (the reference for Check). */
  predicate Accepts(rule: Rule, f: Option<Field>, isEmail: string -> bool) {
    match rule
    case StringMin(n, _) => f.Some? && f.value.Text? && |f.value.s| >= n
    case StringEmail(_) => f.Some? && f.value.Text? && isEmail(f.value.s)
    case NumberMin(lo, _) => f.Some? && f.value.Number? && lo <= f.value.x
    case NumberRange(lo, _, hi, _) => f.Some? && f.value.Number? && lo <= f.value.x <= hi
    case Enum(options, _) => f.Some? && f.value.Text? && f.value.s in options
    case BooleanDefault(_) => f.None? || f.value.Flag?
  }

  /** Check accepts exactly the values Accepts describes, and keeps an accepted value unchanged unless it fills a default. */
  lemma CheckMatchesAccepts(rule: Rule, f: Option<Field>, isEmail: string -> bool)
    ensures Check(rule, f, isEmail).Success? <==> Accepts(rule, f, isEmail)
    ensures Check(rule, f, isEmail).Success? && f.Some? ==> Check(rule, f, isEmail).value == f.value
    ensures Check(rule, f, isEmail).Success? && f.None? ==> rule.BooleanDefault? && Check(rule, f, isEmail).value == Flag(rule.default)
  {
  }

  /** Parses a candidate against a schema, field by field. */
  function Parse(schema: Schema, v: Values, isEmail: string -> bool): Parsed
    decreases |schema|
  {
    if schema == [] then Valid(map[])
    else
      var rest := Parse(schema[1..], v, isEmail);
      var e := schema[0];
      match Check(e.rule, Lookup(v, e.name), isEmail)
      case Success(f) => if rest.Valid? then Valid(rest.data[e.name := f]) else rest
      case Failure(m) => Invalid((if rest.Invalid? then rest.errors else map[])[e.name := m])
  }

  function Names(schema: Schema): set<string> {
    set i | 0 <= i < |schema| :: schema[i].name
  }

  /** Object-literal keys are distinct. */
  ghost predicate UniqueNames(schema: Schema) {
    forall i, j :: 0 <= i < j < |schema| ==> schema[i].name != schema[j].name
  }

  /** The message a parse result shows under field `name`, if any. */
  function ErrorFor(r: Parsed, name: string): Option<string> {
    if r.Invalid? && name in r.errors then Some(r.errors[name]) else None
  }

  function ErrorOf(c: Result<Field, string>): Option<string> {
    if c.Failure? then Some(c.error) else None
  }

  /** A candidate is valid exactly when every field passes its rule. */
  lemma {:induction false} ParseValidIff(schema: Schema, v: Values, isEmail: string -> bool)
    ensures Parse(schema, v, isEmail).Valid? <==>
      forall i :: 0 <= i < |schema| ==> Accepts(schema[i].rule, Lookup(v, schema[i].name), isEmail)
    decreases |schema|
  {
    if schema != [] {
      ParseValidIff(schema[1..], v, isEmail);
      CheckMatchesAccepts(schema[0].rule, Lookup(v, schema[0].name), isEmail);
      if forall i :: 0 <= i < |schema[1..]| ==> Accepts(schema[1..][i].rule, Lookup(v, schema[1..][i].name), isEmail) {
        assert forall i :: 1 <= i < |schema| ==> schema[i] == schema[1..][i - 1];
      } else {
        var i :| 0 <= i < |schema[1..]| && !Accepts(schema[1..][i].rule, Lookup(v, schema[1..][i].name), isEmail);
        assert schema[i + 1] == schema[1..][i];
      }
    }
  }

  /** Only schema fields ever carry a message. */
  lemma {:induction false} ErrorsOnlyForSchemaFields(schema: Schema, v: Values, isEmail: string -> bool, name: string)
    requires name !in Names(schema)
    ensures ErrorFor(Parse(schema, v, isEmail), name) == None
    decreases |schema|
  {
    if schema != [] {
      assert Names(schema[1..]) <= Names(schema) by {
        forall k | k in Names(schema[1..]) ensures k in Names(schema) {
          var i :| 0 <= i < |schema[1..]| && schema[1..][i].name == k;
          assert schema[i + 1].name == k;
        }
      }
      ErrorsOnlyForSchemaFields(schema[1..], v, isEmail, name);
      assert schema[0].name in Names(schema);
    }
  }

  /** A rejected candidate always carries at least one message. */
  lemma {:induction false} InvalidHasErrors(schema: Schema, v: Values, isEmail: string -> bool)
    ensures Parse(schema, v, isEmail).Invalid? ==> |Parse(schema, v, isEmail).errors| > 0
    decreases |schema|
  {
    if schema != [] {
      InvalidHasErrors(schema[1..], v, isEmail);
      var r := Parse(schema, v, isEmail);
      if r.Invalid? {
        assert schema[0].name in r.errors || r == Parse(schema[1..], v, isEmail);
      }
    }
  }

  /** A candidate is valid exactly when no schema field shows a message. */
  lemma NoErrorsIffValid(schema: Schema, v: Values, isEmail: string -> bool)
    ensures Parse(schema, v, isEmail).Valid? <==>
      forall name :: name in Names(schema) ==> ErrorFor(Parse(schema, v, isEmail), name).None?
  {
    var r := Parse(schema, v, isEmail);
    if r.Invalid? {
      InvalidHasErrors(schema, v, isEmail);
      var k :| k in r.errors;
      if k !in Names(schema) {
        ErrorsOnlyForSchemaFields(schema, v, isEmail, k);
      }
      assert ErrorFor(r, k).Some?;
    }
  }

  /** Each schema field shows exactly the message its own check yields, whatever the other fields hold. */
  lemma {:induction false} FieldError(schema: Schema, v: Values, isEmail: string -> bool, i: nat)
    requires UniqueNames(schema) && i < |schema|
    ensures ErrorFor(Parse(schema, v, isEmail), schema[i].name) == ErrorOf(Check(schema[i].rule, Lookup(v, schema[i].name), isEmail))
    decreases |schema|
  {
    var tail := schema[1..];
    assert UniqueNames(tail) by {
      forall a, b | 0 <= a < b < |tail| ensures tail[a].name != tail[b].name {
        assert tail[a] == schema[a + 1] && tail[b] == schema[b + 1];
      }
    }
    if i > 0 {
      assert tail[i - 1] == schema[i];
      FieldError(tail, v, isEmail, i - 1);
      assert schema[0].name != schema[i].name;
    } else {
      assert schema[0].name !in Names(tail) by {
        forall k | 0 <= k < |tail| ensures tail[k].name != schema[0].name {
          assert tail[k] == schema[k + 1];
        }
      }
      ErrorsOnlyForSchemaFields(tail, v, isEmail, schema[0].name);
    }
  }

  /** Parsed data holds exactly the schema's fields (unknown keys are stripped), each with its checked value. */
  lemma {:induction false} ParsedData(schema: Schema, v: Values, isEmail: string -> bool)
    requires UniqueNames(schema)
    requires Parse(schema, v, isEmail).Valid?
    ensures Parse(schema, v, isEmail).data.Keys == Names(schema)
    ensures forall i :: 0 <= i < |schema| ==>
      Check(schema[i].rule, Lookup(v, schema[i].name), isEmail) == Success(Parse(schema, v, isEmail).data[schema[i].name])
    decreases |schema|
  {
    if schema != [] {
      var tail := schema[1..];
      assert UniqueNames(tail) by {
        forall a, b | 0 <= a < b < |tail| ensures tail[a].name != tail[b].name {
          assert tail[a] == schema[a + 1] && tail[b] == schema[b + 1];
        }
      }
      ParsedData(tail, v, isEmail);
      assert Names(schema) == {schema[0].name} + Names(tail) by {
        forall k | k in Names(schema) ensures k in {schema[0].name} + Names(tail) {
          var i :| 0 <= i < |schema| && schema[i].name == k;
          if i > 0 { assert tail[i - 1] == schema[i]; }
        }
        forall k | k in Names(tail) ensures k in Names(schema) {
          var i :| 0 <= i < |tail| && tail[i].name == k;
          assert schema[i + 1] == tail[i];
        }
      }
      forall i | 0 <= i < |schema|
        ensures Check(schema[i].rule, Lookup(v, schema[i].name), isEmail) == Success(Parse(schema, v, isEmail).data[schema[i].name])
      {
        if i > 0 {
          assert tail[i - 1] == schema[i];
          assert schema[0].name != schema[i].name;
        }
      }
    }
  }

  /** The values of `rec` at the keys in `names`: an object literal `{ k: rec.k, ... }`. */
  function Project(rec: Values, names: set<string>): (r: Values)
    ensures r.Keys == names * rec.Keys
    ensures forall k :: k in r ==> r[k] == rec[k]
  {
    map k | k in names && k in rec :: rec[k]
  }

  /** `defaultValues: rec ? { k: rec.k, ... } : undefined`: edit mode copies the listed fields, create mode has no defaults. */
  function Prefill(rec: Option<Values>, names: set<string>): (d: Option<Values>)
    ensures d.None? <==> rec.None?
    ensures rec.Some? ==> d.value.Keys == names * rec.value.Keys && forall k :: k in d.value ==> d.value[k] == rec.value[k]
  {
    if rec.None? then None else Some(Project(rec.value, names))
  }

  /** An accepted candidate is submitted with exactly the schema's keys; every value the user supplied is kept as is. */
  lemma SubmittedKeepsValues(schema: Schema, v: Values, isEmail: string -> bool)
    requires UniqueNames(schema)
    ensures Parse(schema, v, isEmail).Valid? ==>
      && Parse(schema, v, isEmail).data.Keys == Names(schema)
      && forall k :: k in Parse(schema, v, isEmail).data && k in v ==> Parse(schema, v, isEmail).data[k] == v[k]
  {
    var r := Parse(schema, v, isEmail);
    if r.Valid? {
      ParsedData(schema, v, isEmail);
      forall k | k in r.data && k in v ensures r.data[k] == v[k] {
        var i :| 0 <= i < |schema| && schema[i].name == k;
        CheckMatchesAccepts(schema[i].rule, Lookup(v, k), isEmail);
      }
    }
  }

  /** Without defaulted fields, an accepted candidate is submitted as its schema fields, unchanged, and nothing else. */
  lemma SubmittedIsStripped(schema: Schema, v: Values, isEmail: string -> bool)
    requires UniqueNames(schema)
    requires forall i :: 0 <= i < |schema| ==> !schema[i].rule.BooleanDefault?
    ensures Parse(schema, v, isEmail).Valid? ==> Parse(schema, v, isEmail).data == Project(v, Names(schema))
  {
    var r := Parse(schema, v, isEmail);
    if r.Valid? {
      ParsedData(schema, v, isEmail);
      forall k | k in Names(schema) ensures k in v && r.data[k] == v[k] {
        var i :| 0 <= i < |schema| && schema[i].name == k;
        CheckMatchesAccepts(schema[i].rule, Lookup(v, k), isEmail);
      }
    }
  }

  /** Parsing never looks beyond the schema's own fields. */
  lemma {:induction false} ParseIgnoresOtherFields(schema: Schema, v: Values, w: Values, isEmail: string -> bool)
    requires forall i :: 0 <= i < |schema| ==> Lookup(v, schema[i].name) == Lookup(w, schema[i].name)
    ensures Parse(schema, v, isEmail) == Parse(schema, w, isEmail)
    decreases |schema|
  {
    if schema != [] {
      assert forall i :: 0 <= i < |schema[1..]| ==> schema[1..][i] == schema[i + 1];
      ParseIgnoresOtherFields(schema[1..], v, w, isEmail);
    }
  }

  /** Prefilling a form with a projection that keeps every schema field changes nothing the schema decides. */
  lemma ProjectionKeepsVerdict(schema: Schema, rec: Values, names: set<string>, isEmail: string -> bool)
    requires Names(schema) <= names
    ensures Parse(schema, Project(rec, names), isEmail) == Parse(schema, rec, isEmail)
  {
    forall i | 0 <= i < |schema|
      ensures Lookup(Project(rec, names), schema[i].name) == Lookup(rec, schema[i].name)
    {
      assert schema[i].name in Names(schema);
    }
    ParseIgnoresOtherFields(schema, Project(rec, names), rec, isEmail);
  }

  // What one field of each rule kind contributes to a parse, for use by the form modules.

  /** A `z.string().min(n, message)` field: no message exactly when it holds text of length at least n. */
  lemma StringMinField(schema: Schema, v: Values, isEmail: string -> bool, i: nat)
    requires UniqueNames(schema) && i < |schema| && schema[i].rule.StringMin?
    ensures ErrorFor(Parse(schema, v, isEmail), schema[i].name).None? <==> TextAtLeast(v, schema[i].name, schema[i].rule.min)
    ensures IsText(v, schema[i].name) && !TextAtLeast(v, schema[i].name, schema[i].rule.min) ==>
      ErrorFor(Parse(schema, v, isEmail), schema[i].name) == Some(schema[i].rule.message)
    ensures schema[i].name !in v ==> ErrorFor(Parse(schema, v, isEmail), schema[i].name) == Some(Required)
  {
    FieldError(schema, v, isEmail, i);
  }

  /** A `z.string().email(message)` field: no message exactly when it holds text the email predicate accepts. */
  lemma StringEmailField(schema: Schema, v: Values, isEmail: string -> bool, i: nat)
    requires UniqueNames(schema) && i < |schema| && schema[i].rule.StringEmail?
    ensures ErrorFor(Parse(schema, v, isEmail), schema[i].name).None? <==> IsText(v, schema[i].name) && isEmail(v[schema[i].name].s)
    ensures IsText(v, schema[i].name) && !isEmail(v[schema[i].name].s) ==>
      ErrorFor(Parse(schema, v, isEmail), schema[i].name) == Some(schema[i].rule.message)
    ensures schema[i].name !in v ==> ErrorFor(Parse(schema, v, isEmail), schema[i].name) == Some(Required)
  {
    FieldError(schema, v, isEmail, i);
  }

  /** A `z.number().min(lo, message)` field: no message exactly when it holds a number of at least lo. */
  lemma NumberMinField(schema: Schema, v: Values, isEmail: string -> bool, i: nat)
    requires UniqueNames(schema) && i < |schema| && schema[i].rule.NumberMin?
    ensures ErrorFor(Parse(schema, v, isEmail), schema[i].name).None? <==> NumberAtLeast(v, schema[i].name, schema[i].rule.lo)
    ensures IsNumber(v, schema[i].name) && !NumberAtLeast(v, schema[i].name, schema[i].rule.lo) ==>
      ErrorFor(Parse(schema, v, isEmail), schema[i].name) == Some(schema[i].rule.message)
    ensures schema[i].name !in v ==> ErrorFor(Parse(schema, v, isEmail), schema[i].name) == Some(Required)
  {
    FieldError(schema, v, isEmail, i);
  }

  /** A `z.number().min(lo, m1).max(hi, m2)` field: no message exactly inside [lo, hi]; m1 below, m2 above. */
  lemma NumberRangeField(schema: Schema, v: Values, isEmail: string -> bool, i: nat)
    requires UniqueNames(schema) && i < |schema| && schema[i].rule.NumberRange?
    ensures ErrorFor(Parse(schema, v, isEmail), schema[i].name).None? <==>
      NumberWithin(v, schema[i].name, schema[i].rule.lo, schema[i].rule.hi)
    ensures IsNumber(v, schema[i].name) && v[schema[i].name].x < schema[i].rule.lo ==>
      ErrorFor(Parse(schema, v, isEmail), schema[i].name) == Some(schema[i].rule.loMessage)
    ensures IsNumber(v, schema[i].name) && schema[i].rule.lo <= v[schema[i].name].x && v[schema[i].name].x > schema[i].rule.hi ==>
      ErrorFor(Parse(schema, v, isEmail), schema[i].name) == Some(schema[i].rule.hiMessage)
  {
    FieldError(schema, v, isEmail, i);
  }

  /** A `z.enum(options)` field with an error map: no message exactly for one of the option strings, the map's message otherwise. */
  lemma EnumField(schema: Schema, v: Values, isEmail: string -> bool, i: nat)
    requires UniqueNames(schema) && i < |schema| && schema[i].rule.Enum?
    ensures ErrorFor(Parse(schema, v, isEmail), schema[i].name).None? <==>
      IsText(v, schema[i].name) && v[schema[i].name].s in schema[i].rule.options
    ensures ErrorFor(Parse(schema, v, isEmail), schema[i].name).Some? ==>
      ErrorFor(Parse(schema, v, isEmail), schema[i].name) == Some(schema[i].rule.message)
  {
    FieldError(schema, v, isEmail, i);
  }

  /** A `z.boolean().default(d)` field: rejected only when it holds a non-boolean; an omitted value parses as d. */
  lemma BooleanDefaultField(schema: Schema, v: Values, isEmail: string -> bool, i: nat)
    requires UniqueNames(schema) && i < |schema| && schema[i].rule.BooleanDefault?
    ensures ErrorFor(Parse(schema, v, isEmail), schema[i].name).None? <==> (schema[i].name in v ==> v[schema[i].name].Flag?)
    ensures Parse(schema, v, isEmail).Valid? ==>
      && schema[i].name in Parse(schema, v, isEmail).data
      && Parse(schema, v, isEmail).data[schema[i].name] == (if schema[i].name in v then v[schema[i].name] else Flag(schema[i].rule.default))
  {
    FieldError(schema, v, isEmail, i);
    if Parse(schema, v, isEmail).Valid? {
      ParsedData(schema, v, isEmail);
      assert schema[i].name in Names(schema);
    }
  }

  // Reference predicates the form lemmas are stated with.

  predicate IsText(v: Values, name: string) {
    name in v && v[name].Text?
  }

  predicate IsNumber(v: Values, name: string) {
    name in v && v[name].Number?
  }

  /** Field `name` holds text of at least `n` characters. */
  predicate TextAtLeast(v: Values, name: string, n: nat) {
    IsText(v, name) && |v[name].s| >= n
  }

  /** Field `name` holds a number of at least `lo`. */
  predicate NumberAtLeast(v: Values, name: string, lo: real) {
    IsNumber(v, name) && v[name].x >= lo
  }

  /** Field `name` holds a number in the closed range [lo, hi]. */
  predicate NumberWithin(v: Values, name: string, lo: real, hi: real) {
    IsNumber(v, name) && lo <= v[name].x <= hi
  }
}
