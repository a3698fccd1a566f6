/**
 * VectorState: the vec4 storage strategy. Each operation works on the fields of
 * its context Datum: it reallocates and copies the buffer, zeroes slots in place,
 * and updates the size, capacity, type and external flag.
 */
module VectorStates {
  import opened Prelude
  import opened Datums

  class VectorState {
    const context: Datum    // mContext

    constructor (context: Datum)
      ensures this.context == context
    {
      this.context := context;
    }

    /** Copies the first count slots of src into a fresh buffer of length len (memcpy_s). */
    static method CopyInto(src: array?<Value>, count: uint32, len: uint32) returns (dst: array<Value>)
      requires count <= len
      requires count > 0 ==> src != null && count <= src.Length
      ensures fresh(dst) && dst.Length == len
      ensures forall i :: 0 <= i < count ==> dst[i] == src[i]
    {
      dst := new Value[len];
      var i := 0;
      while i < count
        invariant 0 <= i <= count
        invariant forall k :: 0 <= k < i ==> dst[k] == src[k]
      {
        dst[i] := src[i];
        i := i + 1;
      }
    }

    /**
     * operator=(const glm::vec4&) AS WRITTEN: throws when the Datum holds more
     * than one element; on an empty Datum it calls Datum::setSize(1), which is a
     * stub, so the size stays 0; then it writes slot 0 through the buffer pointer.
     */
    method AssignScalar(v: Vec4) returns (o: Outcome<DatumError>)
      requires context.Valid()
      requires context.size <= 1 ==> context.data != null && 0 < context.data.Length
      modifies context.data
      ensures context.Valid()
      ensures o.Pass? <==> old(context.size) <= 1
      ensures o.Fail? ==> o.error == InvalidAssignment
      ensures context.size == old(context.size)
      ensures o.Pass? ==> context.data[0] == VectorValue(v)
      ensures context.data != null ==>
                forall j :: 0 <= j < context.data.Length && (o.Fail? || j != 0) ==>
                  context.data[j] == old(context.data[j])
    {
      if context.size > 1 {
        return Fail(InvalidAssignment);
      }
      if context.size == 0 {
        context.SetSize(1);
      }
      context.data[0] := VectorValue(v);
      o := Pass;
    }

    /**
     * operator=(const glm::vec4&) as evidently intended: an empty Datum first
     * grows to one element (through this state's setSize), so that afterwards the
     * Datum holds exactly the assigned vector.
     */
    method AssignScalarGrowing(v: Vec4) returns (o: Outcome<DatumError>)
      requires context.Valid()
      modifies context, context.data
      ensures context.Valid()
      ensures o.Pass? <==> old(context.size) <= 1
      ensures o.Fail? ==> o.error == InvalidAssignment && unchanged(context)
      ensures o.Fail? && context.data != null ==> unchanged(context.data)
      ensures o.Pass? ==> context.size == 1 && context.data != null && context.data[0] == VectorValue(v)
    {
      if context.size > 1 {
        return Fail(InvalidAssignment);
      }
      if context.size == 0 {
        SetSize(1);
      }
      context.data[0] := VectorValue(v);
      o := Pass;
    }

    /**
     * setSize(n): capacity grows to n when n exceeds it; the buffer is
     * reallocated at the capacity and the old live slots are copied; when n
     * shrinks the Datum, the vacated slots [n, old size) are reset to the zero
     * vector. Slots beyond the old size are uninitialised memory.
     */
    method SetSize(n: uint32)
      requires context.Valid()
      modifies context
      ensures context.Valid()
      ensures context.capacity == Max(old(context.capacity), n)
      ensures context.size == n
      ensures fresh(context.data) && context.data.Length == context.capacity
      ensures forall i :: 0 <= i < Min(old(context.size), n) ==> context.data[i] == old(context.data[i])
      ensures forall i :: n <= i < old(context.size) ==> context.data[i] == ZeroSlot
      ensures context.dtype == old(context.dtype) && context.isExternal == old(context.isExternal)
    {
      if n > context.capacity {
        context.capacity := n;
      }
      var temp := context.data;
      var oldSize := context.size;
      var buffer := CopyInto(temp, oldSize, context.capacity);
      context.data := buffer;
      if n < oldSize {
        var i := n;
        while i < oldSize
          invariant n <= i <= oldSize
          invariant context.data == buffer && context.capacity == Max(old(context.capacity), n)
          invariant context.dtype == old(context.dtype) && context.isExternal == old(context.isExternal)
          invariant forall k :: 0 <= k < n ==> buffer[k] == temp[k]
          invariant forall k :: n <= k < i ==> buffer[k] == ZeroSlot
        {
          buffer[i] := ZeroSlot;
          i := i + 1;
        }
      }
      context.size := n;
    }

    /**
     * reserve(c): throws when c is below the size; otherwise the buffer is
     * reallocated with c slots, the live slots are copied and capacity becomes c.
     */
    method Reserve(c: uint32) returns (o: Outcome<DatumError>)
      requires context.Valid()
      modifies context
      ensures context.Valid()
      ensures o.Pass? <==> c >= old(context.size)
      ensures o.Fail? ==> o.error == WouldTruncate && unchanged(context)
      ensures o.Pass? ==> && context.capacity == c && context.size == old(context.size)
                          && fresh(context.data) && context.data.Length == c
                          && (forall i :: 0 <= i < context.size ==> context.data[i] == old(context.data[i]))
      ensures context.dtype == old(context.dtype) && context.isExternal == old(context.isExternal)
    {
      if c < context.size {
        return Fail(WouldTruncate);
      }
      var temp := context.data;
      context.data := CopyInto(temp, context.size, c);
      context.capacity := c;
      o := Pass;
    }

    /**
     * clear(): zeroes every live slot in place and sets the size to 0; the
     * capacity and the buffer stay. On an empty Datum it does nothing.
     */
    method Clear()
      requires context.Valid()
      modifies context, context.data
      ensures context.Valid()
      ensures context.size == 0
      ensures context.capacity == old(context.capacity) && context.data == old(context.data)
      ensures context.dtype == old(context.dtype) && context.isExternal == old(context.isExternal)
      ensures context.data != null ==>
                forall i :: 0 <= i < context.data.Length ==>
                  context.data[i] == if i < old(context.size) then ZeroSlot else old(context.data[i])
      ensures old(context.size) == 0 ==> unchanged(context) && (context.data != null ==> unchanged(context.data))
    {
      if context.size > 0 {
        var buffer := context.data;
        var i := 0;
        while i < context.size
          invariant 0 <= i <= context.size
          invariant unchanged(context)
          invariant forall k :: 0 <= k < buffer.Length ==>
                      buffer[k] == if k < i then ZeroSlot else old(buffer[k])
        {
          buffer[i] := ZeroSlot;
          i := i + 1;
        }
        context.size := 0;
      }
    }

    /**
     * setStorage(pointer, count): throws unless the Datum is still untyped;
     * otherwise it becomes an external Vector Datum viewing count slots of the
     * caller's memory, with size and capacity count.
     */
    method SetStorage(p: array?<Value>, count: uint32) returns (o: Outcome<DatumError>)
      requires context.Valid()
      requires p == null ==> count == 0
      requires p != null ==> count <= p.Length
      modifies context
      ensures context.Valid()
      ensures o.Pass? <==> old(context.dtype) == Unknown
      ensures o.Fail? ==> o.error == TypeMismatch && unchanged(context)
      ensures o.Pass? ==> && context.dtype == Vector && context.isExternal && context.data == p
                          && context.capacity == count && context.size == count
    {
      if context.dtype != Unknown {
        return Fail(TypeMismatch);
      }
      context.isExternal := true;
      context.dtype := Vector;
      context.data := p;
      context.capacity, context.size := count, count;
      o := Pass;
    }

    /** setStorage(const Datum&): setStorage(rhs.mData.v, rhs.mSize). */
    method SetStorageFrom(rhs: Datum) returns (o: Outcome<DatumError>)
      requires context.Valid() && rhs.Valid()
      modifies context
      ensures context.Valid()
      ensures o.Pass? <==> old(context.dtype) == Unknown
      ensures o.Fail? ==> o.error == TypeMismatch && unchanged(context)
      ensures o.Pass? ==> && context.dtype == Vector && context.isExternal && context.data == old(rhs.data)
                          && context.capacity == old(rhs.size) && context.size == old(rhs.size)
    {
      o := SetStorage(rhs.data, rhs.size);
    }
  }

  /**
   * The vec4 assignment as written, on an empty external Datum: it succeeds and
   * writes slot 0, but the size stays 0, so the Datum still holds no element.
   */
  method AssignToEmptyDatum(v: Vec4) returns (d: Datum, o: Outcome<DatumError>)
    ensures o.Pass? && d.size == 0 && d.data != null && d.data.Length == 1
    ensures d.data[0] == VectorValue(v)
  {
    var memory := new Value[1](_ => ZeroSlot);
    d := new Datum();
    var state := new VectorState(d);
    var attached := state.SetStorage(memory, 0);
    o := state.AssignScalar(v);
  }

  /** The intended vec4 assignment on the same Datum: it then holds exactly the vector. */
  method AssignGrowingToEmptyDatum(v: Vec4) returns (d: Datum, o: Outcome<DatumError>)
    ensures d.Valid() && o.Pass? && d.size == 1 && d.data != null && d.data[0] == VectorValue(v)
  {
    var memory := new Value[1](_ => ZeroSlot);
    d := new Datum();
    var state := new VectorState(d);
    var attached := state.SetStorage(memory, 0);
    o := state.AssignScalarGrowing(v);
  }
}
