/** Shared value types: an optional value and the JSON values that cross the gateway. */
module Common {

  datatype Option<+T> = None | Some(value: T)

  /** A decoded JSON value. Integers and floats are told apart as Python does. */
  datatype Json =
    | Null
    | Bool(truth: bool)
    | Int(number: int)
    | Float(fraction: real)
    | Str(text: string)
    | List(items: seq<Json>)
    | Object(members: map<string, Json>)

  lemma ConcatAssociative<T>(a: seq<T>, b: seq<T>, c: seq<T>)
    ensures a + (b + c) == (a + b) + c
  {
  }
}
