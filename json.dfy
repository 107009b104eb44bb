/** The plain objects that Mongoose hands to a schema's `toJSON` transform as `ret`:
    a dictionary from field names to values, changed in place by the transform. */
module Json {
  import opened Common

  datatype Value =
    | Str(s: string)
    | Num(n: int)
    | Bool(b: bool)
    | Date(ms: int)
    | Id(oid: ObjectId)
    | Arr(items: seq<Value>)

  /** The object `ret` of a transform; the transform assigns and deletes its keys. */
  class JsonObject {
    var fields: map<string, Value>

    constructor (fields: map<string, Value>)
      ensures this.fields == fields
    {
      this.fields := fields;
    }
  }
}
