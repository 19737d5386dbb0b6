/** Run data as the engine passes it between triggers, conditions and actions. */
module Values {

  /** Scalars that travel as text of their own: exact decimals, binary data, dates, paths. */
  datatype StampKind = Decimal | Bytes | DateTime | Date | Time | WindowsPath | PosixPath | Uuid

  datatype Value =
    | Null
    | Bool(b: bool)
    | Int(i: int)
    | Float(f: real)
    | Text(s: string)
    | Stamp(kind: StampKind, text: string)
    | Duration(days: int, seconds: int, microseconds: int)
    | List(items: seq<Value>)
    | Dict(fields: map<string, Value>)

  /** A step of a data path: an object key or an array index. */
  datatype Segment = Key(name: string) | Index(at: nat)
}
