/** The values a caller hands to the query builder.

  Go passes values as `any`; here that open type becomes a closed datatype.
  A `Scalar` is one of the concrete kinds the builders know about, and an
  `Input` is everything a caller can pass: nothing at all, a scalar by value,
  a pointer to a scalar, a pointer to an interface (`*any`), a nil reference
  of some other nilable kind, or a value of a kind nobody recognises. */
module Values {

  datatype Option<+T> = None | Some(value: T)

  newtype byte = x: int | 0 <= x < 256

  /** Go's integer kinds (`byte` is `uint8`). */
  datatype IntKind = Int | Int8 | Int16 | Int32 | Int64 | Uint | Uint8 | Uint16 | Uint32 | Uint64

  datatype FloatKind = Float32 | Float64

  /** The string-like wrapper types of the data-helper package. */
  datatype DbStringKind = VarChar | VarCharMax | NVarCharMax

  /** A concrete value. Floating-point numbers, timestamps and decimals are
      opaque: they carry the text the source's formatting routines would
      produce for them (`fixed` is the `%f` form, `sci` the exponent form,
      `rfc3339` the RFC 3339 timestamp). */
  datatype Scalar =
    | Str(s: string)
    | Integer(kind: IntKind, n: int)
    | Floating(fkind: FloatKind, fixed: string, sci: string)
    | Boolean(b: bool)
    | Timestamp(rfc3339: string)
    | Bytes(data: seq<byte>)
    | Decimal(digits: string)
    | DbString(dkind: DbStringKind, text: string)

  /** A caller-supplied value, as Go's dynamic typing sees it.
      `Ptr(None)` is a typed nil pointer, `AnyPtr(None)` a nil `*any`,
      `AnyPtr(Some(Nil))` a pointer to a nil interface, `NilRef` a nil map,
      slice, channel or function, and `Other` any value of another kind. */
  datatype Input =
    | Nil
    | Plain(s: Scalar)
    | Ptr(target: Option<Scalar>)
    | AnyPtr(inner: Option<Input>)
    | NilRef
    | Other

  /** Go's `==` on two interface values, restricted to what the model can
      decide: equal dynamic type and equal value for comparable scalars.
      Byte slices are not comparable in Go (comparing them panics) and
      pointers compare by address, so neither is ever reported equal here. */
  predicate GoEqual(a: Input, b: Input)
  {
    match a
    case Nil => b == Nil
    case Plain(s) => b == a && !s.Bytes?
    case _ => false
  }
}
