/** JSON documents, and how encoding/json decodes their members into typed fields. */
module Json {
  import opened Wrappers

  datatype Value =
    | Null
    | Bool(b: bool)
    | Str(s: string)
    | Int(n: int)
    | Fraction(text: string)
    | Arr(items: seq<Value>)
    | Obj(members: map<string, Value>)

  /** A member that is present with the value null is present. */
  function Member(members: map<string, Value>, key: string): Option<Value> {
    if key in members then Some(members[key]) else None
  }

  /** The members a struct is decoded from: null decodes as no members, other non-objects fail. */
  function Members(doc: Option<Value>): Option<map<string, Value>> {
    match doc
    case Some(Obj(members)) => Some(members)
    case Some(Null) => Some(map[])
    case _ => None
  }

  /** Decoding into a string field: absent and null leave it empty, any other type fails. */
  function AsString(member: Option<Value>): Option<string> {
    match member
    case None => Some("")
    case Some(Null) => Some("")
    case Some(Str(s)) => Some(s)
    case Some(_) => None
  }

  const MAX_INT: int := 0x7FFF_FFFF_FFFF_FFFF
  const MIN_INT: int := -0x8000_0000_0000_0000

  /** Decoding into an int field: only a whole number of 64 bits fits. */
  function AsInt(member: Option<Value>): Option<int> {
    match member
    case None => Some(0)
    case Some(Null) => Some(0)
    case Some(Int(n)) => if MIN_INT <= n <= MAX_INT then Some(n) else None
    case Some(_) => None
  }
}
