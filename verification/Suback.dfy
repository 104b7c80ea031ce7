/** The SUBACK frame (main/worker.cpp:646-719, section 3.9 of MQTT 3.1.1): it is put together with a zero
    for the Remaining Length, then the length is written in place and the frame grows at the front.

    Repair: the code writes through a pointer into the array (worker.cpp:695). An insert that has to grow
    the array leaves that pointer in the old one, which has been given back, and the rest of the length is
    lost; the end of this module says exactly when. The repaired loop writes at an index.
 */
module Subacks {
  import opened MyVectors
  import opened FixedHeader
  import opened Protocol

  /** What section 3.9 asks for: type, length, packet id and one return code for each filter, in order. */
  function Frame(msb: nat, lsb: nat, codes: seq<nat>): seq<nat> {
    [0x90] + Encode(2 + |codes|) + [msb, lsb] + codes
  }

  /** Room for five bytes; type, a zero for the length, packet id. */
  method Start(msb: nat, lsb: nat) returns (suback: MyVector<nat>)
    ensures fresh(suback) && fresh(suback.data) && suback.Valid()
    ensures suback.Contents() == [0x90, 0, msb, lsb] && suback.data.Length == 5
  {
    suback := new MyVector();
    var reserved := suback.Reserve(5, true);
    suback.PushBack(0x90, true);
    suback.PushBack(0, true);
    suback.PushBack(msb, true);
    suback.PushBack(lsb, true);
  }

  /** The frame before the length is known. One cell is free when the number of codes is even. */
  method Draft(msb: nat, lsb: nat, codes: seq<nat>) returns (suback: MyVector<nat>)
    ensures fresh(suback) && fresh(suback.data) && suback.Valid()
    ensures suback.Contents() == [0x90, 0, msb, lsb] + codes && suback.data.Length == suback.size + (|codes| + 1) % 2
  {
    suback := Start(msb, lsb);
    ghost var draft := suback.Contents();
    var i := 0;
    while i < |codes|
      invariant 0 <= i <= |codes| && fresh(suback.data) && suback.Valid()
      invariant suback.Contents() == draft + codes[..i] && suback.data.Length == suback.size + (i + 1) % 2
    {
      suback.PushBack(codes[i], true);
      Snoc(draft, codes, i);
      i := i + 1;
    }
    assert codes[..i] == codes;
  }

  lemma Snoc(s: seq<nat>, codes: seq<nat>, i: nat)
    requires i < |codes|
    ensures s + codes[..i] + [codes[i]] == s + codes[..i + 1]
  {
  }

  /** One step of the length loop, the byte for what is left of the length. */
  function LengthByte(n: nat): nat {
    if n / 128 > 0 then n % 128 + 128 else n % 128
  }

  lemma Grown(head: seq<nat>, byte: nat, tail: seq<nat>)
    ensures var s, k := head + [byte] + tail, |head| + 1; s[..k] + [0] + s[k..] == head + [byte] + [0] + tail
  {
    assert (head + [byte] + tail)[..|head| + 1] == head + [byte];
  }

  /** A byte is written, to the frame or to an array that is not the frame's any more. */
  method Put(suback: MyVector<nat>, target: array<nat>, at: nat, byte: nat, ghost head: seq<nat>, ghost last: nat, ghost tail: seq<nat>)
    requires suback.Valid() && suback.Contents() == head + [last] + tail && at == |head| < target.Length
    modifies target
    ensures suback.Contents() == head + [if target == suback.data then byte else last] + tail && target[at] == byte
  {
    target[at] := byte;
  }

  /** A zero goes in behind the byte. */
  method Widen(suback: MyVector<nat>, insertId: nat, ghost head: seq<nat>, ghost byte: nat, ghost tail: seq<nat>)
    requires suback.Valid() && suback.Contents() == head + [byte] + tail && insertId == |head| + 1 && |tail| > 0
    modifies suback, suback.data
    ensures suback.Valid() && suback.Contents() == head + [byte] + [0] + tail
    ensures if old(suback.size == suback.data.Length) then fresh(suback.data) && suback.data.Length == old(suback.data.Length) + 2 else suback.data == old(suback.data)
  {
    Grown(head, byte, tail);
    var inserted := suback.Insert(insertId, 0, true);
  }

  /** The loop of worker.cpp:698-713, repaired: the cell is named by its index. */
  method WriteLength(suback: MyVector<nat>)
    requires suback.Valid() && 4 <= suback.size < 65538
    modifies suback, suback.data
    ensures suback.Valid()
    ensures suback.Contents() == old(suback.Contents()[..1]) + Encode(old(suback.size) - 2) + old(suback.Contents()[2..])
  {
    var n: nat, at, insertId := suback.size - 2, 1, 2;
    ghost var head: seq<nat>, last: nat, tail: seq<nat> := suback.Contents()[..1], suback.Contents()[1], suback.Contents()[2..];
    assert suback.Contents() == head + [last] + tail;
    while true
      invariant suback.Valid() && (fresh(suback.data) || suback.data == old(suback.data))
      invariant insertId == at + 1 && |head| == at && suback.Contents() == head + [last] + tail && |tail| > 0
      invariant head + Encode(n) == old(suback.Contents()[..1]) + Encode(old(suback.size) - 2)
      decreases n
    {
      ghost var byte := LengthByte(n);
      ghost var low: nat := n % 128;
      Put(suback, suback.data, at, n % 128, head, last, tail);
      n := n / 128;
      if n > 0 {
        Put(suback, suback.data, at, suback.data[at] + 128, head, low, tail);
        Widen(suback, insertId, head, byte, tail);
        insertId := insertId + 1;
        head, last := head + [byte], 0;
      }
      at := at + 1;
      if n == 0 {
        break;
      }
    }
  }

  /** The SUBACK of a packet, for as many filters as a packet of up to 65535 bytes can hold. */
  method Suback(msb: nat, lsb: nat, codes: seq<nat>) returns (frame: seq<nat>)
    requires |codes| < 65534
    ensures frame == Frame(msb, lsb, codes)
  {
    var suback := Draft(msb, lsb, codes);
    WriteLength(suback);
    assert ([0x90, 0, msb, lsb] + codes)[..1] == [0x90] && ([0x90, 0, msb, lsb] + codes)[2..] == [msb, lsb] + codes;
    frame := suback.data[..suback.size];
  }

  /** The header loop takes the frame apart again: it finds the length, and behind the header there are
      that many bytes, the packet id and the codes. */
  lemma FrameRoundTrip(msb: nat, lsb: nat, codes: seq<nat>)
    requires |codes| < 65534
    ensures Decoded(Frame(msb, lsb, codes)[1..]) == Some(Header(2 + |codes|, 1 + |Encode(2 + |codes|)|))
    ensures var f, n := Frame(msb, lsb, codes), 1 + |Encode(2 + |codes|)|; n <= |f| && f[n..] == [msb, lsb] + codes && |f| == n + 2 + |codes|
  {
    var f := Frame(msb, lsb, codes);
    assert f[1..] == Encode(2 + |codes|) + ([msb, lsb] + codes);
    DecodeEncode(2 + |codes|, [msb, lsb] + codes);
  }

  // ---------- as written ----------

  /** The length as the code leaves it, with `room` free cells and the pointer in the array or not. */
  function Written(n: nat, room: nat, attached: bool): seq<nat> {
    var byte := if attached then LengthByte(n) else 0;
    if n / 128 == 0 then [byte]
    else [byte] + Written(n / 128, if room > 0 then room - 1 else 1, attached && room > 0)
  }

  lemma WrittenOn(head: seq<nat>, n: nat, room: nat, attached: bool)
    ensures var byte := if attached then LengthByte(n) else 0;
            head + Written(n, room, attached)
            == if n / 128 == 0 then head + [byte]
               else (head + [byte]) + Written(n / 128, if room > 0 then room - 1 else 1, attached && room > 0)
  {
  }

  /** A round of that loop (worker.cpp:700-711). */
  method PutLength(suback: MyVector<nat>, target: array<nat>, at: nat, insertId: nat, n: nat,
                   ghost head: seq<nat>, ghost last: nat, ghost tail: seq<nat>)
    returns (ghost byte: nat)
    requires suback.Valid() && suback.Contents() == head + [last] + tail && at == |head| < target.Length && |tail| > 0
    requires insertId == at + 1 && (target != suback.data ==> last == 0)
    modifies suback, suback.data, target
    ensures suback.Valid() && byte == if old(target == suback.data) then LengthByte(n) else 0
    ensures suback.Contents() == if n / 128 == 0 then head + [byte] + tail else head + [byte] + [0] + tail
    ensures if n / 128 > 0 && old(suback.size == suback.data.Length) then fresh(suback.data) && suback.data.Length == old(suback.data.Length) + 2 else suback.data == old(suback.data)
  {
    byte := if target == suback.data then LengthByte(n) else 0;
    ghost var low: nat := if target == suback.data then n % 128 else 0;
    Put(suback, target, at, n % 128, head, last, tail);
    if n / 128 > 0 {
      Put(suback, target, at, target[at] + 128, head, low, tail);
      Widen(suback, insertId, head, byte, tail);
    }
  }

  /** The loop of worker.cpp:698-713. The pointer is the pair of an array and an offset. */
  method WriteLengthAsWritten(suback: MyVector<nat>)
    requires suback.Valid() && 4 <= suback.size
    modifies suback, suback.data
    ensures suback.Valid()
    ensures suback.Contents() == old(suback.Contents()[..1]) + Written(old(suback.size - 2) % 65536, old(suback.data.Length - suback.size), true)
                                 + old(suback.Contents()[2..])
  {
    var n: nat, target, at, insertId := (suback.size - 2) % 65536, suback.data, 1, 2;
    ghost var head: seq<nat>, last: nat, tail: seq<nat> := suback.Contents()[..1], suback.Contents()[1], suback.Contents()[2..];
    ghost var whole := head + Written(n, suback.data.Length - suback.size, true);
    assert suback.Contents() == head + [last] + tail;
    while true
      invariant suback.Valid() && (fresh(suback.data) || suback.data == old(suback.data)) && target == old(suback.data)
      invariant insertId == at + 1 && |head| == at < target.Length && suback.Contents() == head + [last] + tail && |tail| > 0
      invariant head + Written(n, suback.data.Length - suback.size, target == suback.data) == whole
      invariant target != suback.data ==> last == 0
      invariant at == 1 || (at == 2 && n < 512) || (at == 3 && n < 4)
      decreases n
    {
      WrittenOn(head, n, suback.data.Length - suback.size, target == suback.data);
      ghost var byte := PutLength(suback, target, at, insertId, n, head, last, tail);
      n := n / 128;
      if n > 0 {
        insertId := insertId + 1;
        head, last := head + [byte], 0;
      }
      at := at + 1;
      if n == 0 {
        break;
      }
    }
  }

  /** The frame the code sends. */
  function FrameAsWritten(msb: nat, lsb: nat, codes: seq<nat>): seq<nat> {
    [0x90] + Written((2 + |codes|) % 65536, (|codes| + 1) % 2, true) + [msb, lsb] + codes
  }

  method SubackAsWritten(msb: nat, lsb: nat, codes: seq<nat>) returns (frame: seq<nat>)
    ensures frame == FrameAsWritten(msb, lsb, codes)
  {
    var suback := Draft(msb, lsb, codes);
    WriteLengthAsWritten(suback);
    assert ([0x90, 0, msb, lsb] + codes)[..1] == [0x90] && ([0x90, 0, msb, lsb] + codes)[2..] == [msb, lsb] + codes;
    frame := suback.data[..suback.size];
  }

  /** The frame is right exactly when the length takes one byte, or two and the number of codes is even. */
  lemma SubackExactly(msb: nat, lsb: nat, codes: seq<nat>)
    ensures FrameAsWritten(msb, lsb, codes) == Frame(msb, lsb, codes)
            <==> 2 + |codes| < 128 || (2 + |codes| < 16384 && |codes| % 2 == 0)
  {
    var n, room := 2 + |codes|, (|codes| + 1) % 2;
    SameField(0x90, Written(n % 65536, room, true), Encode(n), [msb, lsb] + codes);
    assert FrameAsWritten(msb, lsb, codes) == [0x90] + Written(n % 65536, room, true) + ([msb, lsb] + codes);
    assert Frame(msb, lsb, codes) == [0x90] + Encode(n) + ([msb, lsb] + codes);
    WrittenExactly(n, room);
  }

  lemma SameField(first: nat, a: seq<nat>, b: seq<nat>, rest: seq<nat>)
    ensures [first] + a + rest == [first] + b + rest <==> a == b
  {
    var x, y := [first] + a + rest, [first] + b + rest;
    if x == y {
      assert |a| == |b|;
      assert a == x[1..|a| + 1] && b == y[1..|b| + 1];
    }
  }

  lemma WrittenExactly(n: nat, room: nat)
    requires room <= 1
    ensures Written(n % 65536, room, true) == Encode(n) <==> n < 128 || (n < 16384 && room == 1)
  {
    if n >= 16384 {
      ThirdByteIsLost(n, room);
      assert Encode(n)[1..] == Encode(n / 128) && Encode(n / 128)[1..] == Encode(n / 128 / 128);
      assert Encode(n)[2] == Encode(n / 128 / 128)[0] != 0;
    } else if n >= 128 {
      assert n % 65536 == n && n / 128 / 128 == 0;
      assert Encode(n) == [n % 128 + 128, n / 128];
      assert Written(n / 128, if room > 0 then 0 else 1, room > 0) == [if room > 0 then n / 128 else 0];
      assert Written(n, room, true) == [n % 128 + 128, if room > 0 then n / 128 else 0];
    }
  }

  /** There is no third byte, or it is zero. */
  lemma ThirdByteIsLost(n: nat, room: nat)
    requires room <= 1
    ensures var w := Written(n % 65536, room, true); |w| <= 3 && (|w| == 3 ==> w[2] == 0)
  {
    var m := n % 65536;
    var second, third := if room > 0 then 0 else 1, if room > 0 then 1 else 0;
    assert m / 128 / 128 / 128 == 0;
    assert Written(m / 128 / 128, third, false) == [0];
    assert Written(m / 128, second, room > 0)[1..] == if m / 128 / 128 == 0 then [] else [0];
    assert Written(m, room, true)[1..] == if m / 128 == 0 then [] else Written(m / 128, second, room > 0);
  }

  /** With 127 filters the second byte of the length stays zero. */
  lemma SubackFails(msb: nat, lsb: nat, codes: seq<nat>)
    requires |codes| == 127
    ensures FrameAsWritten(msb, lsb, codes)[1..3] == [129, 0] && Frame(msb, lsb, codes)[1..3] == [129, 1]
  {
  }
}
