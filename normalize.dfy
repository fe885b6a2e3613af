/** The v2 value normaliser: `isNil`, `getv` and `realValue`.

  Every value, default, match-to-null value and filter value is passed
  through `RealValue` at the start of a build. The result is either `Nil` or
  a recognised scalar held by value. */
module Normalize {
  import opened Values

  /** `isNil`: an untyped nil, or a nil value of a nilable kind (pointer,
      interface pointer, map, slice, channel, function). */
  predicate IsNil(x: Input)
  {
    match x
    case Nil => true
    case Plain(_) => false
    case Ptr(t) => t.None?
    case AnyPtr(i) => i.None?
    case NilRef => true
    case Other => false
  }

  /** The scalar kinds `getv` returns as they are. The unsigned integer kinds
      other than `byte` are not among them. */
  predicate Recognised(s: Scalar)
  {
    !(s.Integer? && s.kind in {Uint, Uint16, Uint32, Uint64})
  }

  /** The kinds `getv` dereferences a pointer to: the recognised ones except
      the data-helper string wrappers. */
  predicate PointerRecognised(s: Scalar)
  {
    Recognised(s) && !s.DbString?
  }

  /** The shape of a normalised value. */
  predicate Normalized(x: Input)
  {
    x == Nil || (x.Plain? && Recognised(x.s))
  }

  function Embed(o: Option<Scalar>): Input
  {
    match o
    case None => Nil
    case Some(s) => Plain(s)
  }

  /** `getv`: a recognised scalar as it is, or the target of a non-nil pointer
      to a recognised kind; anything else is nil. */
  function GetV(x: Input): (r: Option<Scalar>)
    ensures r.Some? ==> Recognised(r.value)
    ensures r.Some? ==> x == Plain(r.value) || (x == Ptr(Some(r.value)) && !r.value.DbString?)
  {
    match x
    case Plain(s) => if Recognised(s) then Some(s) else None
    case Ptr(Some(s)) => if PointerRecognised(s) then Some(s) else None
    case _ => None
  }

  /** `realValue`: nil stays nil, one level of `*any` is unwrapped, then
      `getv` decides. */
  function RealValue(x: Input): (r: Input)
    ensures Normalized(r)
    ensures IsNil(x) ==> r == Nil
  {
    if IsNil(x) then Nil
    else match x
      case AnyPtr(Some(inner)) => if inner == Nil then Nil else Embed(GetV(inner))
      case _ => Embed(GetV(x))
  }

  /** What `realValue` yields, described without its code: a scalar `s` comes
      out exactly when the input is `s` itself, a pointer to `s`, or one of
      those two behind a single `*any`, and `s` is of a kind accepted there. */
  lemma RealValueIsScalar(x: Input, s: Scalar)
    ensures RealValue(x) == Plain(s) <==>
      ((x == Plain(s) || x == AnyPtr(Some(Plain(s)))) && Recognised(s)) ||
      ((x == Ptr(Some(s)) || x == AnyPtr(Some(Ptr(Some(s))))) && PointerRecognised(s))
  {
  }

  /** Only one `*any` level is unwrapped: a wrapper around a wrapper is nil. */
  lemma DoubleWrapIsNil(inner: Option<Input>)
    ensures RealValue(AnyPtr(Some(AnyPtr(inner)))) == Nil
  {
  }

  /** Normalised values are fixed points: normalising twice is harmless. */
  lemma RealValueIdempotent(x: Input)
    ensures RealValue(RealValue(x)) == RealValue(x)
  {
  }

  /** A normalised value is nil exactly when it is `Nil`. */
  lemma NormalizedNil(x: Input)
    requires Normalized(x)
    ensures IsNil(x) <==> x == Nil
  {
  }
}
