/** The doubling buffer behind the log formatter and the line prefixer. */
module GrowableBuffer {
  import opened CText

  /** Doubles a capacity until it holds what is required. */
  method Doubled(start: nat, required: nat) returns (c: nat)
    requires 0 < start
    ensures required <= c && (c == start || (c < 2 * required && 2 * start <= c))
  {
    c := start;
    while c < required
      invariant c == start || (c < 2 * required && 2 * start <= c)
      decreases required - c
    {
      c := 2 * c;
    }
  }

  class Growable {
    const initial: nat
    var data: array?<char>
    var length: nat
    var capacity: nat
    /** Bytes that reallocations have moved so far. */
    ghost var recopied: nat

    ghost predicate Valid()
      reads this, data
    {
      && initial > 0
      && (data == null ==> capacity == 0 && length == 0 && recopied == 0)
      && (data != null ==> data.Length == capacity && length < capacity && data[length] == '\0')
      && (data != null ==> capacity <= Max(initial, 2 * (length + 1)))
      && recopied <= capacity
    }

    ghost function Contents(): string
      requires Valid()
      reads this, data
    {
      if data == null then "" else data[..length]
    }

    constructor (initial: nat)
      requires initial > 0
      ensures Valid() && Contents() == "" && this.initial == initial && data == null && recopied == 0
    {
      this.initial := initial;
      data, length, capacity, recopied := null, 0, 0, 0;
    }

    /** Moves the bytes to a larger block, with room behind them. */
    method Reallocate(size: nat)
      requires Valid() && size > capacity
      modifies this
      ensures data != null && fresh(data) && data.Length == size && capacity == size && length == old(length)
      ensures data[..length] == old(Contents()) && recopied == old(recopied) + old(capacity)
    {
      var grown := new char[size];
      for i := 0 to length
        modifies grown
        invariant data != null ==> grown[..i] == data[..i]
      {
        grown[i] := data[i];
        assert grown[..i + 1] == grown[..i] + [data[i]] && data[..i + 1] == data[..i] + [data[i]];
      }
      recopied := recopied + capacity;
      data, capacity := grown, size;
    }

    /** Puts the new bytes behind the ones in use, which stay. */
    method CopyIn(value: string)
      requires data != null && length + |value| < data.Length
      modifies data
      ensures data[..length + |value|] == old(data[..length]) + value
    {
      ghost var was := data[..length];
      for i := 0 to |value|
        invariant data[..length + i] == was + value[..i]
      {
        data[length + i] := value[i];
        assert data[..length + (i + 1)] == data[..length + i] + [value[i]] && value[..i + 1] == value[..i] + [value[i]];
      }
      assert value[..|value|] == value;
    }

    /** Makes room for what is required. */
    method Reserve(required: nat)
      requires Valid() && length < required
      modifies this
      ensures data != null && required <= capacity == data.Length && length == old(length)
      ensures data[..length] == old(Contents()) && (data == old(data) || fresh(data))
      ensures capacity <= Max(initial, 2 * required) && recopied <= capacity
    {
      if required > capacity {
        var size := Doubled(if capacity > 0 then capacity else initial, required);
        Reallocate(size);
      }
    }

    /** Appending keeps the bytes and their terminator, the capacity at most doubles the
        need, and all the moving ever done stays within the capacity. */
    method Append(value: string)
      requires Valid()
      modifies this, data
      ensures Valid() && Contents() == old(Contents()) + value
      ensures data == old(data) || fresh(data)
      ensures capacity <= Max(initial, 2 * (|Contents()| + 1))
      ensures recopied <= capacity
    {
      if value == "" {
        assert Contents() + "" == Contents();
        return;
      }
      ghost var was := Contents();
      Reserve(length + |value| + 1);
      CopyIn(value);
      length := length + |value|;
      data[length] := '\0';
      assert data[..length] == was + value;
    }

    /** The bytes, once nothing is to be added. */
    method Finish() returns (out: string)
      requires Valid()
      ensures out == Contents()
    {
      out := if data == null then "" else data[..length];
    }
  }
}
