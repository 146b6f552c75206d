/** Type identities and type-erased values: `std::any::TypeId` and `Box<dyn Any>`. */
module Any {
  import opened Wrappers

  /** Rust's `u8`. */
  type u8 = x: int | 0 <= x < 256

  /** A `TypeId`: the identity of a user type `T`, or one of the two private marker types
      that callback-less connectors carry so that they can never be linked. */
  datatype TypeToken = TypeOf(name: string) | EmptyNodeInput | EmptyNodeOutput

  /** The token of `u8`, the only value type the sample node kinds exchange. */
  const U8: TypeToken := TypeOf("u8")

  /** A boxed value; its type is part of the value, as it is for `Box<dyn Any>`.
      `EmptyNodeInput` is an empty enum, so no value has that type. */
  datatype Value = U8Value(byte: u8) | EmptyNodeOutputValue

  function TypeIdOf(v: Value): (t: TypeToken)
    ensures t != EmptyNodeInput
    ensures t == U8 <==> v.U8Value?
  {
    match v
    case U8Value(_) => U8
    case EmptyNodeOutputValue => EmptyNodeOutput
  }

  /** `Box<dyn Any>::downcast::<T>()`: succeeds exactly when the value's type is `T`,
      and then hands back the same value. */
  function Downcast(v: Value, t: TypeToken): (r: Option<Value>)
    ensures r.Some? <==> TypeIdOf(v) == t
    ensures r.Some? ==> r.value == v
  {
    if TypeIdOf(v) == t then Some(v) else None
  }
}
