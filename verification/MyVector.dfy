/** The growable array (main/myvector.ipp) behind the table of a connection and the SUBACK frame: room
    grows by two when it is used up. `memory` says whether the allocator has any left.
 */
module MyVectors {
  /** How a reservation ends. */
  datatype Reservation = Reserved | NoMemory | PastArray

  class MyVector<T(0,==)> {
    var data: array<T>
    var size: nat

    ghost predicate Valid()
      reads this
    {
      size <= data.Length
    }

    ghost function Contents(): (s: seq<T>)
      reads this, data
      requires Valid()
    {
      data[..size]
    }

    constructor ()
      ensures Valid() && Contents() == [] && data.Length == 0 && fresh(data)
    {
      data := new T[0];
      size := 0;
    }

    method PushBack(val: T, memory: bool)
      requires Valid()
      modifies this, data
      ensures Valid()
      ensures var room := old(size < data.Length);
        && Contents() == (if room || memory then old(Contents()) + [val] else old(Contents()))
        && (if room || !memory then data == old(data) else fresh(data) && data.Length == old(data.Length) + 2)
    {
      if size + 1 > data.Length {
        if !memory { return; }
        var wider := new T[data.Length + 2];
        forall i | 0 <= i < size { wider[i] := data[i]; }
        data := wider;
      }
      data[size] := val;
      size := size + 1;
    }

    /** With less room than is in use the code copies behind the end of the new array; the model stops there. */
    method Reserve(room: nat, memory: bool) returns (r: Reservation)
      requires Valid()
      modifies this
      ensures Valid() && Contents() == old(Contents())
      ensures r == if !memory then NoMemory else if room < old(size) then PastArray else Reserved
      ensures if r == Reserved then fresh(data) && data.Length == room else data == old(data)
    {
      if !memory { return NoMemory; }
      var wider := new T[room];
      if room < size { return PastArray; }
      forall i | 0 <= i < size { wider[i] := data[i]; }
      data := wider;
      r := Reserved;
    }

    method Equal(s: seq<T>) returns (equal: bool)
      requires Valid()
      ensures equal <==> Contents() == s
    {
      if size != |s| { return false; }
      var i := 0;
      while i < size
        invariant 0 <= i <= size && data[..i] == s[..i]
      {
        if data[i] != s[i] {
          assert Contents()[i] != s[i];
          return false;
        }
        i := i + 1;
      }
      equal := true;
    }

    /** Nothing can be inserted at the end or beyond. With room the tail moves up in place; without, a
        wider array takes over and the old one is given back. */
    method Insert(pos: nat, val: T, memory: bool) returns (ok: bool)
      requires Valid()
      modifies this, data
      ensures Valid() && ok == old(pos < size && (size < data.Length || memory))
      ensures Contents() == if ok then old(Contents()[..pos] + [val] + Contents()[pos..]) else old(Contents())
      ensures if ok && old(size == data.Length) then fresh(data) && data.Length == old(data.Length) + 2 else data == old(data)
    {
      if pos >= size { return false; }
      ghost var was := Contents();
      if size + 1 > data.Length {
        if !memory { return false; }
        var wider := new T[data.Length + 2];
        forall i | 0 <= i < pos { wider[i] := data[i]; }
        wider[pos] := val;
        forall i | pos <= i < size { wider[i + 1] := data[i]; }
        data := wider;
      } else {
        forall i | pos <= i < size { data[i + 1] := data[i]; }
        data[pos] := val;
      }
      size := size + 1;
      assert data[..pos] == was[..pos] && data[pos + 1..size] == was[pos..];
      assert data[..size] == data[..pos] + [data[pos]] + data[pos + 1..size];
      ok := true;
    }
  }
}
