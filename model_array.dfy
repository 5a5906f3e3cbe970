/**
 * The growable array of placed models (ModelArray.c): a header holding the
 * number of stored instances, the allocated capacity and a pointer to the
 * element buffer, which is reallocated to twice the capacity when full.
 *
 * Allocation outcomes are inputs: `headerOk`, `bufferOk` and `reallocOk` say
 * whether the corresponding malloc/realloc returned a block.
 */
module ModelArrays {

  /** Capacity used when the caller asks for none. */
  const DefaultCapacity: nat := 4

  type Byte = b: int | 0 <= b < 256

  datatype Position = Position(x: real, y: real, z: real)

  datatype Color = Color(r: Byte, g: Byte, b: Byte, a: Byte)

  /**
   * One placed model. The raylib Model and Texture2D are foreign resources
   * and appear as opaque handles.
   */
  datatype ModelInstance = ModelInstance(model: nat, texture: nat, position: Position, scale: real, color: Color)

  /** What one call of AppendModel does. */
  datatype AppendOutcome =
    | Stored            // the instance went to models[size] and size grew by one
    | ReallocFailed     // realloc returned NULL: nothing stored
    | WriteOutOfBounds  // models[size] lies past the end of the element buffer

  /**
   * realloc of an element buffer to `count` elements: on success a fresh
   * block that starts with the old contents, on failure NULL.
   */
  method Realloc(block: array<ModelInstance>, count: nat, ok: bool) returns (grown: array?<ModelInstance>)
    requires block.Length <= count
    ensures !ok ==> grown == null
    ensures ok ==> grown != null && fresh(grown) && grown.Length == count
    ensures ok ==> grown[..block.Length] == block[..]
  {
    if !ok {
      return null;
    }
    grown := new ModelInstance[count];
    for i := 0 to block.Length
      invariant grown[..i] == block[..i]
    {
      grown[i] := block[i];
    }
  }

  class ModelArray {
    /** Number of instances stored. */
    var size: nat
    /** Number of instances the buffer is meant to hold. */
    var capacity: nat
    /** The element buffer. */
    var models: array<ModelInstance>

    /** The intended invariant: the recorded capacity is the buffer's length. */
    ghost predicate Valid()
      reads this
    {
      0 < capacity && size <= capacity && models.Length == capacity
    }

    /**
     * Every state the operations as written can reach: after a failed
     * realloc the recorded capacity may exceed the buffer's length.
     */
    ghost predicate Reachable()
      reads this
    {
      0 < capacity && size <= capacity && size <= models.Length <= capacity
    }

    /** The stored instances, in insertion order. */
    ghost function Contents(): seq<ModelInstance>
      reads this, models
      requires size <= models.Length
    {
      models[..size]
    }

    /** A header for an empty array over `buffer`. */
    constructor (buffer: array<ModelInstance>)
      requires buffer.Length > 0
      ensures Valid() && size == 0 && capacity == buffer.Length && models == buffer
    {
      size := 0;
      capacity := buffer.Length;
      models := buffer;
    }

    /**
     * AppendModel as written: when full, the capacity is doubled before the
     * realloc, and a failed realloc returns without restoring it. The write
     * at models[size] is reported as WriteOutOfBounds, with nothing changed,
     * when it would fall outside the buffer.
     */
    method AppendModel(instance: ModelInstance, reallocOk: bool) returns (outcome: AppendOutcome)
      requires Reachable()
      modifies this, models
      ensures Reachable()
      ensures models == old(models) || fresh(models)
      ensures old(size) < old(capacity) ==> models == old(models)
      ensures old(size) >= old(capacity) ==> capacity == 2 * old(capacity)
      ensures old(size) < old(capacity) ==> capacity == old(capacity)
      ensures outcome == Stored && old(size) >= old(capacity) ==> fresh(models) && models.Length == capacity
      ensures old(Valid()) ==> outcome != WriteOutOfBounds
      ensures old(Valid()) && outcome == Stored ==> Valid()
      ensures outcome == ReallocFailed <==> old(size) >= old(capacity) && !reallocOk
      ensures outcome == WriteOutOfBounds <==> old(size) < old(capacity) && old(size) == old(models.Length)
      ensures outcome == Stored ==> size == old(size) + 1 && Contents() == old(Contents()) + [instance]
      ensures outcome != Stored ==> size == old(size) && models == old(models) && Contents() == old(Contents())
      ensures outcome == ReallocFailed ==> models.Length < capacity
    {
      if size >= capacity {
        capacity := capacity * 2;
        var grown := Realloc(models, capacity, reallocOk);
        if grown == null {
          return ReallocFailed;
        }
        models := grown;
      }
      if size >= models.Length {
        return WriteOutOfBounds;
      }
      ghost var before := models[..size];
      models[size] := instance;
      size := size + 1;
      assert Contents() == before + [instance];
      return Stored;
    }

    /**
     * AppendModel with the capacity committed only once the realloc has
     * succeeded: the recorded capacity always equals the buffer's length,
     * so the write at models[size] is always inside the buffer.
     */
    method AppendModelChecked(instance: ModelInstance, reallocOk: bool) returns (stored: bool)
      requires Valid()
      modifies this, models
      ensures Valid()
      ensures models == old(models) || fresh(models)
      ensures stored <==> old(size) < old(capacity) || reallocOk
      ensures stored ==> size == old(size) + 1 && Contents() == old(Contents()) + [instance]
      ensures stored && old(size) >= old(capacity) ==> capacity == 2 * old(capacity)
      ensures stored && old(size) < old(capacity) ==> capacity == old(capacity)
      ensures !stored ==> size == old(size) && capacity == old(capacity) && models == old(models) && Contents() == old(Contents())
    {
      if size >= capacity {
        var newCapacity := capacity * 2;
        var grown := Realloc(models, newCapacity, reallocOk);
        if grown == null {
          return false;
        }
        models := grown;
        capacity := newCapacity;
      }
      ghost var before := models[..size];
      models[size] := instance;
      size := size + 1;
      assert Contents() == before + [instance];
      return true;
    }
  }

  /**
   * CreateModelArray: NULL when either allocation fails; when only the
   * element buffer fails the header is freed first (`headerFreed`).
   * Otherwise an empty array of the requested capacity, or of
   * DefaultCapacity when none is requested.
   */
  method CreateModelArray(initialCapacity: nat, headerOk: bool, bufferOk: bool)
    returns (modelArray: ModelArray?, headerFreed: bool)
    ensures modelArray == null <==> !(headerOk && bufferOk)
    ensures headerFreed <==> headerOk && !bufferOk
    ensures modelArray != null ==> fresh(modelArray) && fresh(modelArray.models) && modelArray.Valid() && modelArray.size == 0
    ensures modelArray != null ==> modelArray.capacity == if initialCapacity > 0 then initialCapacity else DefaultCapacity
  {
    if !headerOk {
      return null, false;
    }
    var capacity := if initialCapacity > 0 then initialCapacity else DefaultCapacity;
    if !bufferOk {
      return null, true;
    }
    var buffer := new ModelInstance[capacity];
    modelArray := new ModelArray(buffer);
    headerFreed := false;
  }

  /**
   * UnloadModelArray: the instances whose model and texture are released,
   * in index order; nothing for NULL.
   */
  method UnloadModelArray(modelArray: ModelArray?) returns (released: seq<ModelInstance>)
    requires modelArray != null ==> modelArray.size <= modelArray.models.Length
    ensures modelArray == null ==> released == []
    ensures modelArray != null ==> released == modelArray.models[..modelArray.size]
  {
    released := [];
    if modelArray != null {
      for i := 0 to modelArray.size
        invariant released == modelArray.models[..i]
      {
        released := released + [modelArray.models[i]];
      }
    }
  }

  /**
   * FreeModelArray: the blocks passed to free, element buffer first, then
   * the header; nothing for NULL.
   */
  method FreeModelArray(modelArray: ModelArray?) returns (freed: seq<object>)
    ensures modelArray == null ==> freed == []
    ensures modelArray != null ==> freed == [modelArray.models, modelArray]
  {
    freed := [];
    if modelArray != null {
      var header: ModelArray := modelArray;
      freed := freed + [modelArray.models];
      freed := freed + [header];
    }
  }

  /**
   * A failed realloc followed by an append: from a fresh array of capacity
   * 1 holding one instance, the failed growth leaves capacity 2 over a
   * one-element buffer, and the next append writes models[1], past the end.
   */
  method FailedReallocThenAppend(x: ModelInstance) returns (first: AppendOutcome, second: AppendOutcome, third: AppendOutcome)
    ensures first == Stored
    ensures second == ReallocFailed
    ensures third == WriteOutOfBounds
  {
    var buffer := new ModelInstance[1];
    var a := new ModelArray(buffer);
    first := a.AppendModel(x, true);
    second := a.AppendModel(x, false);
    third := a.AppendModel(x, true);
  }

  /**
   * Appends whose reallocs all succeed: from a one-slot array, four appends
   * grow the buffer from 1 to 2 to 4 slots and every one of them stores.
   */
  method SuccessfulAppends(x: ModelInstance) returns (outcomes: seq<AppendOutcome>, capacity: nat, bufferLength: nat, contents: seq<ModelInstance>)
    ensures outcomes == [Stored, Stored, Stored, Stored]
    ensures capacity == 4 && bufferLength == 4
    ensures contents == [x, x, x, x]
  {
    var buffer := new ModelInstance[1];
    var a := new ModelArray(buffer);
    assert a.Contents() == [];
    var o1 := a.AppendModel(x, true);
    var o2 := a.AppendModel(x, true);
    var o3 := a.AppendModel(x, true);
    var o4 := a.AppendModel(x, true);
    outcomes := [o1, o2, o3, o4];
    capacity := a.capacity;
    bufferLength := a.models.Length;
    contents := a.models[..a.size];
  }

  /** The same calls on the corrected append: the failure stores nothing, the retry stores. */
  method FailedReallocThenAppendChecked(x: ModelInstance) returns (first: bool, second: bool, third: bool, contents: seq<ModelInstance>)
    ensures first && !second && third
    ensures contents == [x, x]
  {
    var buffer := new ModelInstance[1];
    var a := new ModelArray(buffer);
    assert a.Contents() == [];
    first := a.AppendModelChecked(x, true);
    second := a.AppendModelChecked(x, false);
    third := a.AppendModelChecked(x, true);
    contents := a.models[..a.size];
  }
}
