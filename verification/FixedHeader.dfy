/** The Remaining Length field (main/worker.cpp:297-326): the loop that reads it and the encoding of
    section 2.2.3 of MQTT 3.1.1. `packet_length` and `multiplier` are 16 bits wide in the code
    (worker.cpp:197-198) and `additional_packet_len` is 8 bits wide; the wrap-around is kept.
 */
module FixedHeader {
  import opened Protocol

  /** The length that was read, and how many bytes the fixed header took. */
  datatype Header = Header(length: nat, size: nat)

  /** Section 2.2.3: seven bits a byte, least significant first, the eighth bit says that more follow. */
  function Encode(n: nat): seq<nat> {
    if n < 128 then [n] else [n % 128 + 128] + Encode(n / 128)
  }

  /** What a field stands for. */
  function Value(field: seq<nat>): nat {
    if field == [] then 0 else field[0] % 128 + 128 * Value(field[1..])
  }

  /** The field a stream begins with, if it comes to an end. */
  function Field(stream: seq<nat>): Option<seq<nat>> {
    if stream == [] then None
    else if stream[0] < 128 then Some([stream[0]])
    else match Field(stream[1..])
      case None => None
      case Some(rest) => Some([stream[0]] + rest)
  }

  /** What the loop makes of a stream, in the code's widths. */
  function Decoded(stream: seq<nat>): Option<Header> {
    match Field(stream)
    case None => None
    case Some(field) => Some(Header(Value(field) % 65536, (1 + |field|) % 256))
  }

  /** What `multiplier` is at byte `i`: 128^i modulo 2^16. */
  function Multiplier(i: nat): nat {
    if i == 0 then 1 else if i == 1 then 128 else if i == 2 then 16384 else 0
  }

  /** `digit * 128^i`. */
  function Placed(digit: nat, i: nat): nat {
    if i == 0 then digit else 128 * Placed(digit, i - 1)
  }

  lemma {:induction false} ValueSnoc(field: seq<nat>, byte: nat)
    ensures Value(field + [byte]) == Value(field) + Placed(byte % 128, |field|)
  {
    if field == [] {
      assert field + [byte] == [byte] && Value([byte][1..]) == 0;
    } else {
      ValueSnoc(field[1..], byte);
      assert (field + [byte])[1..] == field[1..] + [byte];
    }
  }

  /** The code's product is the place value of the digit, or both are 0 modulo 2^16. */
  lemma Products(digit: nat, i: nat)
    ensures i < 3 ==> digit * Multiplier(i) == Placed(digit, i)
    ensures i >= 3 ==> digit * Multiplier(i) == 0 && Placed(digit, i) == 65536 * (32 * Placed(digit, i - 3))
  {
    if i > 2 {
      assert Placed(digit, i - 1) == 16384 * Placed(digit, i - 3);
    } else if i == 2 {
      assert Placed(digit, 1) == 128 * digit;
    }
  }

  lemma {:induction false} FieldIs(stream: seq<nat>, n: nat)
    requires n <= |stream| && forall k :: 0 <= k < n ==> stream[k] >= 128
    ensures n == |stream| ==> Field(stream) == None
    ensures n < |stream| && stream[n] < 128 ==> Field(stream) == Some(stream[..n + 1])
  {
    if n > 0 {
      FieldIs(stream[1..], n - 1);
      if n < |stream| && stream[n] < 128 {
        assert stream[1..][n - 1] == stream[n];
        assert [stream[0]] + stream[1..][..n] == stream[..n + 1];
      }
    } else if n < |stream| {
      assert [stream[0]] == stream[..1];
    }
  }

  lemma AddModulo(x: nat, placed: nat, added: nat, k: nat)
    requires placed == added || (added == 0 && placed == 65536 * k)
    ensures (x + placed) % 65536 == (x % 65536 + added) % 65536
  {
  }

  /** One more byte. */
  lemma NextByte(read: seq<nat>, byte: nat, added: nat)
    requires added == byte % 128 * Multiplier(|read|)
    ensures Value(read + [byte]) % 65536 == (Value(read) % 65536 + added) % 65536
  {
    var digit, i := byte % 128, |read|;
    ValueSnoc(read, byte);
    Products(digit, i);
    AddModulo(Value(read), Placed(digit, i), added, if i < 3 then 0 else 32 * Placed(digit, i - 3));
  }

  const BUFF_SIZE := 1024

  /** How the loop ends: with a header, with a read that fails, or with a write behind the buffer. */
  datatype Reading = Complete(header: Header) | ReadFailed | PastBuffer

  /** The packet type and the field up to its last byte do not fit into the buffer. */
  predicate Overruns(stream: seq<nat>) {
    BUFF_SIZE <= |stream| && forall k :: 0 <= k < BUFF_SIZE - 1 ==> stream[k] >= 128
  }

  /** The loop. The stream is what the connection will deliver after the packet type; a read fails at
      its end. The bytes go to the buffer, behind the packet type, and nothing stops the loop at the
      buffer's end: the test of the multiplier does not fire. */
  method ReadLength(stream: seq<nat>) returns (r: Reading)
    ensures r == PastBuffer <==> Overruns(stream)
    ensures !Overruns(stream) ==> r == match Decoded(stream) case None => ReadFailed case Some(h) => Complete(h)
  {
    var length, multiplier, size, i := 0, 1, 1, 0;
    while true
      invariant i <= |stream| && i < BUFF_SIZE && length == Value(stream[..i]) % 65536
      invariant multiplier == Multiplier(i) && size == (1 + i) % 256
      invariant forall k :: 0 <= k < i ==> stream[k] >= 128
      decreases |stream| - i
    {
      FieldIs(stream, i);
      if i == |stream| {
        return ReadFailed;
      }
      if 1 + i == BUFF_SIZE {
        return PastBuffer;
      }
      var byte := stream[i];
      NextByte(stream[..i], byte, byte % 128 * multiplier);
      assert stream[..i] + [byte] == stream[..i + 1];
      length := (length + byte % 128 * multiplier) % 65536;
      multiplier := multiplier * 128 % 65536;
      if multiplier > 128 * 128 * 128 {  // 16 bits never are
        assert false;
      }
      size := (size + 1) % 256;
      i := i + 1;
      if byte < 128 {
        break;
      }
    }
    assert !Overruns(stream) by { assert stream[i - 1] < 128; }
    r := Complete(Header(length, size));
  }

  /** An encoded length is one field, whatever follows it, and stands for the length. */
  lemma {:induction false} EncodeIsField(n: nat, rest: seq<nat>)
    ensures Field(Encode(n) + rest) == Some(Encode(n)) && Value(Encode(n)) == n
    ensures forall b :: b in Encode(n) ==> b < 256
  {
    if n < 128 {
      assert Encode(n)[1..] == [];
    } else {
      EncodeIsField(n / 128, rest);
      assert Encode(n)[1..] == Encode(n / 128);
      assert (Encode(n) + rest)[1..] == Encode(n / 128) + rest;
    }
  }

  /** Two, three, four bytes (section 2.2.3, table 2.4). */
  lemma EncodedSize(n: nat)
    requires n < 268435456
    ensures |Encode(n)| == if n < 128 then 1 else if n < 16384 then 2 else if n < 2097152 then 3 else 4
  {
    assert n >= 128 ==> |Encode(n)| == 1 + |Encode(n / 128)|;
    assert n / 128 >= 128 ==> |Encode(n / 128)| == 1 + |Encode(n / 128 / 128)|;
    assert n / 128 / 128 >= 128 ==> |Encode(n / 128 / 128)| == 1 + |Encode(n / 128 / 128 / 128)|;
  }

  /** No length of the standard overruns the buffer. */
  lemma EncodedFits(n: nat, rest: seq<nat>)
    requires n < 268435456
    ensures !Overruns(Encode(n) + rest)
  {
    EncodeIsField(n, rest);
    EncodedSize(n);
    LastByte(n);
    var k := |Encode(n)| - 1;
    assert (Encode(n) + rest)[k] == Encode(n)[k] < 128;
  }

  lemma {:induction false} LastByte(n: nat)
    ensures |Encode(n)| > 0 && Encode(n)[|Encode(n)| - 1] < 128
  {
    if n >= 128 {
      LastByte(n / 128);
    }
  }

  /** Reading undoes encoding modulo 2^16, over every length the standard has, and the header size is right. */
  lemma DecodeEncode(n: nat, rest: seq<nat>)
    requires n < 268435456
    ensures Decoded(Encode(n) + rest) == Some(Header(n % 65536, 1 + |Encode(n)|))
  {
    EncodeIsField(n, rest);
    EncodedSize(n);
  }

  /** So the length comes back exactly when it fits in 16 bits. */
  lemma RoundTripExactly(n: nat, rest: seq<nat>)
    requires n < 268435456
    ensures Decoded(Encode(n) + rest) == Some(Header(n, 1 + |Encode(n)|)) <==> n < 65536
  {
    DecodeEncode(n, rest);
  }

  /** The size limit that follows the loop (worker.cpp:321). */
  predicate Accepted(h: Option<Header>) {
    h.Some? && h.value.length + h.value.size <= 1024
  }

  /** What the limit lets through: every packet of up to 1024 bytes; and, since the check for a malformed
      length cannot fire on 16 bits, longer ones whose length wraps to a small one. Those are misread. */
  lemma MisreadExactly(n: nat, rest: seq<nat>)
    requires n < 268435456
    ensures var h := Decoded(Encode(n) + rest);
      && (Accepted(h) <==> n % 65536 + 1 + |Encode(n)| <= 1024)
      && (Accepted(h) && h.value.length != n <==> n >= 65536 && n % 65536 + 1 + |Encode(n)| <= 1024)
      && (n < 65536 ==> (Accepted(h) <==> n + 1 + |Encode(n)| <= 1024))
  {
    DecodeEncode(n, rest);
  }

  /** A packet of 65546 bytes is taken for one of 10. */
  lemma MisreadExample(rest: seq<nat>)
    ensures Encode(65546) == [138, 128, 4] && Accepted(Decoded([138, 128, 4] + rest)) && Decoded([138, 128, 4] + rest).value.length == 10
  {
    assert Encode(65546 / 128) == [128, 4];
    DecodeEncode(65546, rest);
  }
}
