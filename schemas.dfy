/** The part of JSON Schema that the message schemas of the core use
    (`type`, `enum`, `properties`, `required`, `items`, `minItems`,
    `maxItems`), with the behaviour of the two validators the core calls. */
module Schemas {
  import opened Wrappers
  import opened JsValues

  datatype Schema =
    /** `type: 'object'` with `properties` and `required`. */
    | SObject(props: seq<(string, Schema)>, required: seq<string>)
    /** `type: 'number'`. */
    | SNumber
    /** `type: 'integer'`. */
    | SInteger
    /** `type: 'string'`, with an optional `enum` of allowed strings. */
    | SString(allowed: Option<seq<string>>)
    /** `type: 'array'` with `items` and optional `minItems`/`maxItems`. */
    | SArray(item: Schema, minItems: Option<nat>, maxItems: Option<nat>)

  /** A present value satisfies a schema. Properties the schema does not
      mention are allowed (neither validator is told otherwise). */
  predicate Conforms(j: Json, s: Schema)
    decreases s
  {
    match s
    case SNumber => j.JNum?
    case SInteger => j.JNum? && IsIntegral(j.n)
    case SString(allowed) => j.JStr? && (allowed.None? || j.s in allowed.value)
    case SArray(item, lo, hi) =>
      && j.JArr?
      && (lo.None? || |j.items| >= lo.value)
      && (hi.None? || |j.items| <= hi.value)
      && forall i :: 0 <= i < |j.items| ==> Conforms(j.items[i], item)
    case SObject(props, req) =>
      && j.JObj?
      && (forall k :: k in req ==> k in j.fields)
      && forall i :: 0 <= i < |props| ==>
           (props[i].0 in j.fields ==> Conforms(j.fields[props[i].0], props[i].1))
  }

  /** Ajv's `validate(schema, data)`: `undefined` fails every typed schema. */
  predicate AjvValid(s: Schema, data: Option<Json>) {
    data.Some? && Conforms(data.value, s)
  }

  /** The jsonschema package's `validate(data, schema).valid`: its `type`
      and `required` keywords skip an `undefined` instance, so `undefined`
      passes. */
  predicate JsonSchemaValid(data: Option<Json>, s: Schema) {
    data.None? || Conforms(data.value, s)
  }

  /** An optional property of an object, if present, satisfies `s`. */
  predicate OptionalConforms(j: Json, key: string, s: Schema)
    requires j.JObj?
  {
    key in j.fields ==> Conforms(j.fields[key], s)
  }

  /** A required property of an object is present and satisfies `s`. */
  predicate RequiredConforms(j: Json, key: string, s: Schema)
    requires j.JObj?
  {
    key in j.fields && Conforms(j.fields[key], s)
  }

  /** A conforming object: each required key is present, and each declared
      property that is present conforms to its schema. */
  lemma {:induction false} ObjectParts(j: Json, s: Schema, i: nat)
    requires s.SObject? && Conforms(j, s) && i < |s.props|
    ensures j.JObj?
    ensures forall k :: k in s.required ==> k in j.fields
    ensures s.props[i].0 in j.fields ==> Conforms(j.fields[s.props[i].0], s.props[i].1)
  {
  }
}
