/**
 * The Datum value cell: a typed, growable array whose type tag can be set once.
 * The buffer union mData is one nullable array of tagged element values; two
 * Datums that share a buffer (after the copy constructor) share the array.
 */
module Datums {
  import opened Prelude

  /** DatumType */
  datatype DatumType = Unknown | Integer | Float | Vector | Matrix | Table | String | Pointer

  /** A 32-bit float, kept as its bit pattern (no float arithmetic is modelled). */
  datatype Float32 = Float32(bits: bv32)

  /** glm::vec4 */
  datatype Vec4 = Vec4(x: Float32, y: Float32, z: Float32, w: Float32)

  /** glm::vec4(NULL): every component is 0.0f. */
  const ZeroVec4: Vec4 := Vec4(Float32(0), Float32(0), Float32(0), Float32(0))

  /** An RTTI* pointer: null, or the identity of some object. */
  datatype Handle = Null | Ref(id: nat)

  /** One slot of the buffer, tagged with the member of the union it was written through. */
  datatype Value =
    | IntValue(i: uint32)
    | FloatValue(f: Float32)
    | StringValue(s: string)
    | VectorValue(v: Vec4)
    | PointerValue(r: Handle)

  /** The zero vector slot that VectorState writes into vacated slots. */
  const ZeroSlot: Value := VectorValue(ZeroVec4)

  /** The Datum type of a value: the one whose get/set specialisation handles it, or Vector, which VectorState handles. */
  function TypeOf(v: Value): (t: DatumType)
    ensures t != Unknown
  {
    match v
    case IntValue(_) => Integer
    case FloatValue(_) => Float
    case StringValue(_) => String
    case VectorValue(_) => Vector
    case PointerValue(_) => Pointer
  }

  /** The types that have a get<T>/set<T> specialisation in Datum.cpp (uint32, float, string, RTTI*). */
  predicate HasAccessor(t: DatumType)
  {
    t == Integer || t == Float || t == String || t == Pointer
  }

  /** The exceptions the Datum layer throws, one per distinct message. */
  datatype DatumError =
    | TypeMismatch        // "Calling get/set on invalid type", "Attempting to change type", "Attempting to reassign Datum Type"
    | NullStorage         // "Attempting to dereference nullptr"
    | IndexOutOfRange     // "Accessing beyond array bounds"
    | WouldTruncate       // "Attempting to clobber occupied data"
    | InvalidAssignment   // "Invalid assignment invocation"

  /** The type a Datum holds after setType(requested), or the error setType throws. */
  function SetTypeResult(current: DatumType, requested: DatumType): (r: Result<DatumType, DatumError>)
    ensures r.Ok? <==> current == Unknown || current == requested
    ensures r.Ok? ==> r.value == requested
    ensures r.Err? ==> r.error == TypeMismatch
  {
    if current == Unknown || current == requested then Ok(requested) else Err(TypeMismatch)
  }

  /** A second setType with the type the first one set succeeds and changes nothing. */
  lemma SetTypeIdempotent(current: DatumType, requested: DatumType)
    requires SetTypeResult(current, requested).Ok?
    ensures SetTypeResult(SetTypeResult(current, requested).value, requested)
            == SetTypeResult(current, requested)
  {
  }

  /** Once a concrete type is set, no other type can be set. */
  lemma SetTypeIsFinal(current: DatumType, first: DatumType, second: DatumType)
    requires SetTypeResult(current, first).Ok? && first != Unknown && second != first
    ensures SetTypeResult(SetTypeResult(current, first).value, second) == Err(TypeMismatch)
  {
  }

  class Datum {
    var dtype: DatumType          // mType
    var size: uint32              // mSize
    var capacity: uint32          // mCapacity
    var isExternal: bool          // mDataIsExternal
    var data: array?<Value>       // mData (null is nullptr)

    /** size <= capacity, and the buffer, when there is one, holds capacity slots. */
    ghost predicate Valid()
      reads this
    {
      && size <= capacity
      && (data == null ==> size == 0)
      && (data != null ==> capacity <= data.Length)
    }

    /** Datum(): no type, no elements, capacity 13, internal storage and no buffer yet. */
    constructor ()
      ensures Valid()
      ensures dtype == Unknown && size == 0 && capacity == 13 && !isExternal && data == null
    {
      dtype, capacity, size, isExternal, data := Unknown, 13, 0, false, null;
    }

    /** Datum(type): as Datum(), except for the type. */
    constructor OfType(t: DatumType)
      ensures Valid()
      ensures dtype == t && size == 0 && capacity == 13 && !isExternal && data == null
    {
      dtype, capacity, size, isExternal, data := t, 13, 0, false, null;
    }

    /** Datum(const Datum&): copies every field; the copy aliases the same buffer. */
    constructor Copy(rhs: Datum)
      requires rhs.Valid()
      ensures Valid()
      ensures dtype == rhs.dtype && size == rhs.size && capacity == rhs.capacity
      ensures isExternal == rhs.isExternal && data == rhs.data
    {
      dtype, data, capacity, size, isExternal := rhs.dtype, rhs.data, rhs.capacity, rhs.size, rhs.isExternal;
    }

    /** operator=(const Datum&): an unimplemented stub, it changes nothing and returns *this. */
    method Assign(rhs: Datum) returns (self: Datum)
      ensures self == this
    {
      self := this;
    }

    /** operator=(Datum&&): an unimplemented stub, it changes nothing and returns *this. */
    method MoveAssign(rhs: Datum) returns (self: Datum)
      ensures self == this
    {
      self := this;
    }

    /** operator==: an unimplemented stub that reports every pair of Datums equal. */
    function Equals(rhs: Datum): (r: bool)
      ensures r
    {
      true
    }

    /** operator!=: the negation of operator==, hence false for every pair while == is a stub. */
    function NotEquals(rhs: Datum): (r: bool)
      ensures r == !Equals(rhs)
      ensures !r
    {
      !Equals(rhs)
    }

    /** type(): an unimplemented stub that reports Unknown whatever the stored type. */
    method Type() returns (t: DatumType)
      ensures t == Unknown
    {
      t := Unknown;
    }

    /** setType: moves Unknown to a concrete type, accepts the current type, and throws otherwise. */
    method SetType(t: DatumType) returns (o: Outcome<DatumError>)
      modifies this`dtype
      ensures o.Pass? <==> old(dtype) == Unknown || old(dtype) == t
      ensures o.Fail? ==> o.error == TypeMismatch
      ensures dtype == (if o.Pass? then t else old(dtype))
      ensures SetTypeResult(old(dtype), t) == (if o.Pass? then Ok(dtype) else Err(TypeMismatch))
    {
      if dtype == Unknown || dtype == t {
        dtype := t;
        o := Pass;
      } else {
        o := Fail(TypeMismatch);
      }
    }

    /** size(): the stored number of elements. */
    method Size() returns (n: uint32)
      ensures n == size
    {
      n := size;
    }

    /** setSize: an unimplemented stub in Datum, it changes nothing. */
    method SetSize(n: uint32)
      ensures unchanged(this)
      ensures data != null ==> unchanged(data)
    {
    }

    /** clear: an unimplemented stub in Datum, it changes nothing. */
    method Clear()
      ensures unchanged(this)
      ensures data != null ==> unchanged(data)
    {
    }

    /** reserve: an unimplemented stub in Datum, it changes nothing. */
    method Reserve(c: uint32)
      ensures unchanged(this)
      ensures data != null ==> unchanged(data)
    {
    }

    /**
     * get<T>(index) where T is the element type of tag t: checks the type, then
     * the buffer pointer, then the bound, and returns the slot.
     */
    method Get(t: DatumType, index: uint32) returns (r: Result<Value, DatumError>)
      requires Valid() && HasAccessor(t)
      ensures dtype != t ==> r == Err(TypeMismatch)
      ensures dtype == t && data == null ==> r == Err(NullStorage)
      ensures dtype == t && data != null && index >= size ==> r == Err(IndexOutOfRange)
      ensures r.Ok? <==> dtype == t && data != null && index < size
      ensures r.Ok? ==> r.value == data[index]
    {
      if dtype != t {
        return Err(TypeMismatch);
      }
      if data == null {
        return Err(NullStorage);
      }
      if index >= size {
        return Err(IndexOutOfRange);
      }
      r := Ok(data[index]);
    }

    /**
     * set<T>(value, index): checks the type only, then writes the slot. There is
     * no bounds check, so the caller must name a slot inside the buffer.
     */
    method Set(v: Value, index: uint32) returns (o: Outcome<DatumError>)
      requires Valid() && HasAccessor(TypeOf(v))
      requires dtype == TypeOf(v) ==> data != null && index < data.Length
      modifies data
      ensures o.Pass? <==> dtype == TypeOf(v)
      ensures o.Fail? ==> o.error == TypeMismatch
      ensures o.Pass? ==> data[index] == v
      ensures data != null ==>
                forall j :: 0 <= j < data.Length && (o.Fail? || j != index) ==> data[j] == old(data[j])
    {
      if dtype != TypeOf(v) {
        return Fail(TypeMismatch);
      }
      data[index] := v;
      o := Pass;
    }
  }
}
