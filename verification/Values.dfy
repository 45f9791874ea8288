/** What an entry's bytes stand for: raw bytes, or the decoded payload of an application record. */
module Values {
  import opened Clocks

  type byte = b: int | 0 <= b < 256

  datatype FieldValue =
    | Null
    | Bool(b: bool)
    | I64(n: int)
    | F64(x: real)
    | Str(s: string)
    | Blob(bytes: seq<byte>)
    | List(items: seq<FieldValue>)
    | Map(pairs: map<string, FieldValue>)

  /** The stored part of a record; its JSON encoding is injective, so the payload stands for its bytes. */
  datatype Payload = Payload(
    fields: map<string, FieldValue>,
    tombstone: bool,
    updatedAt: Option<nat>,
    fieldClocks: map<string, LamportClock>)

  datatype Value = Raw(bytes: seq<byte>) | Record(payload: Payload)
}
