/**
 * Stored records. MongoDB documents are dictionaries from field names to
 * values; the collection assigns every inserted document an ObjectId `_id`,
 * kept here apart from the other fields as its hexadecimal text.
 */
module Documents {

  datatype Value =
    | Null
    | Bool(b: bool)
    | Int(i: int)
    | Text(s: string)
    | List(items: seq<Value>)
    | Time(t: int)

  type Fields = map<string, Value>

  datatype StoredDoc = StoredDoc(oid: string, fields: Fields)

  /** Python truthiness of a stored value. */
  predicate Truthy(v: Value) {
    match v
    case Null => false
    case Bool(b) => b
    case Int(i) => i != 0
    case Text(s) => s != ""
    case List(items) => items != []
    case Time(_) => true
  }

  /** `key in doc and doc[key] == Text(s)`: the equality filter MongoDB applies to a string field. */
  predicate FieldIs(fields: Fields, key: string, s: string) {
    key in fields && fields[key] == Text(s)
  }
}
