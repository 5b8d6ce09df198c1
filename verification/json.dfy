/**
 * The part of a JSON document that the image-product metadata and the
 * composite recipe read and write: scalars, arrays and string-keyed objects.
 * Key order (the source's `ordered_json`) carries no meaning here and is not kept.
 */
module Json {
  import opened Wrappers

  datatype Json =
    | Null
    | Bool(b: bool)
    | Int(i: int)
    | Float(r: real)
    | Str(s: string)
    | Array(items: seq<Json>)
    | Object(fields: map<string, Json>)

  /**
   * Why reading a value out of a document failed. A type mismatch is an
   * exception in the library. A missing key is not: `operator[]` on a const
   * document without that key has undefined behaviour, which this model
   * turns into an error value rather than guessing at a result.
   */
  datatype JsonError =
    | MissingKey(key: string)      // `operator[]` on a const document without that key
    | TypeMismatch(key: string)    // `get<T>()` on a value of another type (throws)

  /** The library's `contains`: false for every value that is not an object. */
  predicate Contains(j: Json, key: string) {
    j.Object? && key in j.fields
  }

  /** Read-only lookup of `key` in an object. */
  function At(j: Json, key: string): Result<Json, JsonError> {
    if Contains(j, key) then Success(j.fields[key]) else Failure(MissingKey(key))
  }

  /** `j[key].get<std::string>()` on a const document. */
  function GetString(j: Json, key: string): (r: Result<string, JsonError>)
    ensures r.Success? <==> Contains(j, key) && j.fields[key].Str?
    ensures r.Success? ==> j.fields[key] == Str(r.value)
  {
    var v :- At(j, key);
    if v.Str? then Success(v.s) else Failure(TypeMismatch(key))
  }

  /** `j[key].get<bool>()` on a const document. */
  function GetBool(j: Json, key: string): (r: Result<bool, JsonError>)
    ensures r.Success? <==> Contains(j, key) && j.fields[key].Bool?
    ensures r.Success? ==> j.fields[key] == Bool(r.value)
  {
    var v :- At(j, key);
    if v.Bool? then Success(v.b) else Failure(TypeMismatch(key))
  }
}
