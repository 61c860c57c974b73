/** JSON values as the server's JSON library holds them, and the two member
    accessors the request handler relies on: `contains(key)` and
    `value(key, default)`. Parsing and serialising are not defined here; they
    are supplied from outside (see module Server). */
module JsonValue {

  /** A JSON document. Objects keep one value per key; the order in which
      members are written out is the serialiser's business. Integers are
      unbounded here; the library's signed/unsigned split is not modelled. */
  datatype Json =
    | Null
    | Bool(b: bool)
    | Int(i: int)
    | Float(f: real)
    | Str(s: string)
    | Arr(items: seq<Json>)
    | Obj(members: map<string, Json>)

  /** Why an access to a JSON value threw. `Malformed` is what the parser
      throws; the other two are the library's type errors. */
  datatype Failure =
    | Malformed(what: string)               // the text could not be parsed
    | ValueOnNonObject(found: Json)         // value(key, default) on a non-object
    | NotAString(key: string, found: Json)  // the member exists but is no string

  datatype Option<+T> = None | Some(value: T)

  /** The outcome of an operation that may throw. */
  datatype Result<+T> = Ok(value: T) | Err(failure: Failure) {
    predicate IsFailure() { Err? }

    function PropagateFailure<U>(): Result<U>
      requires Err?
    {
      Err(failure)
    }

    function Extract(): T
      requires Ok?
    {
      value
    }
  }

  /** `j.contains(key)`: false for every value that is not an object. */
  predicate Contains(j: Json, key: string) {
    j.Obj? && key in j.members
  }

  /** The member `key` of `j`, or `default` when `j` has no such member.
      On an object this is `j.value(key, default)` with a JSON default, which
      returns any member as it is and cannot throw; on a non-object that call
      throws, but the handler never makes it on one. */
  function Member(j: Json, key: string, default: Json): Json {
    if Contains(j, key) then j.members[key] else default
  }

  /** `j.value(key, default)` with a string default: throws on a non-object
      and on a member that is not a string. */
  function StringValue(j: Json, key: string, default: string): Result<string> {
    if !j.Obj? then Err(ValueOnNonObject(j))
    else if key !in j.members then Ok(default)
    else if j.members[key].Str? then Ok(j.members[key].s)
    else Err(NotAString(key, j.members[key]))
  }

  /** The member accessor for strings fails exactly on a non-object or a
      member of another type, and otherwise yields the member or the default. */
  lemma StringValueSpec(j: Json, key: string, default: string)
    ensures StringValue(j, key, default).Err? <==>
              !j.Obj? || (key in j.members && !j.members[key].Str?)
    ensures StringValue(j, key, default).Ok? ==>
              Member(j, key, Str(default)) == Str(StringValue(j, key, default).value)
  {
  }
}
