/** Values and updates as they travel between replicas.

    A replicated-object update is a positional tuple whose slot 0 is the data,
    slot 1 the logical timestamp and slot 2 the source id; anything after that
    is carried along untouched. Data payloads are JSON values. */
module Wire {

  datatype Option<T> = None | Some(value: T)

  /** A JSON value (the update data crosses the wire as JSON). */
  datatype Value =
    | Null
    | Bool(b: bool)
    | Num(n: int)
    | Str(s: string)
    | Arr(items: seq<Value>)
    | Obj(fields: map<string, Value>)

  /** An update: data, timestamp, source id, and the remaining slots. */
  datatype Update = Update(data: Value, timestamp: int, sourceId: string, rest: seq<Value>)

  /** A watermark vector: source id to the newest timestamp already known from it. */
  type Sources = map<string, int>

  /** The JSON array form of an update, as it is stored inside another value. */
  function ToValue(u: Update): (r: Value)
    ensures TimestampOf(r) == Some(u.timestamp)
    ensures r.Arr? && |r.items| >= 3 && r.items[0] == u.data && r.items[2] == Str(u.sourceId)
  {
    Arr([u.data, Num(u.timestamp), Str(u.sourceId)] + u.rest)
  }

  /** Slot 1 of a stored update, when it is a number. */
  function TimestampOf(v: Value): (r: Option<int>)
    ensures r.Some? ==> v.Arr? && |v.items| > 1 && v.items[1] == Num(r.value)
  {
    if v.Arr? && |v.items| > 1 && v.items[1].Num? then Some(v.items[1].n) else None
  }
}
