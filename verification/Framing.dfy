/** Length-prefixed framing of messages: four big-endian length bytes, then the encoded message.

    The message encoding itself is a parameter: an encoder and a decoder that inverts it. */
module Framing {
  import opened Orders

  datatype Codec<!M> = Codec(encode: M -> Bytes, decode: Bytes -> Option<M>)

  ghost predicate Faithful<M(!new)>(c: Codec<M>) {
    forall m :: c.decode(c.encode(m)) == Some(m)
  }

  const HEADER_LENGTH := 4

  const TWO_TO_32 := 0x1_0000_0000

  function BigEndian(n: nat): (r: Bytes)
    requires n < TWO_TO_32
    ensures |r| == HEADER_LENGTH
  {
    [n / 0x1_00_0000, n / 0x1_0000 % 0x100, n / 0x100 % 0x100, n % 0x100]
  }

  function FromBigEndian(b: Bytes): nat
    requires |b| == HEADER_LENGTH
  {
    var b0: nat, b1: nat, b2: nat, b3: nat := b[0], b[1], b[2], b[3];
    ((b0 * 0x100 + b1) * 0x100 + b2) * 0x100 + b3
  }

  lemma {:induction false} BigEndianRoundTrip(n: nat)
    requires n < TWO_TO_32
    ensures FromBigEndian(BigEndian(n)) == n
  {
    var a, b, c := n / 0x100, n / 0x1_0000, n / 0x1_00_0000;
    assert n == a * 0x100 + n % 0x100;
    assert a == b * 0x100 + a % 0x100;
    assert b == c * 0x100 + b % 0x100;
  }

  /** Longer messages have larger headers, byte for byte from the front. */
  lemma {:induction false} HeaderOrder(m: nat, n: nat)
    requires m < TWO_TO_32 && n < TWO_TO_32
    ensures BytesLess(BigEndian(m), BigEndian(n)) <==> m < n
  {
    var a, b := BigEndian(m), BigEndian(n);
    BigEndianRoundTrip(m);
    BigEndianRoundTrip(n);
    hide BigEndian;
    assert BytesLess(a, b) <==> a[0] < b[0] || (a[0] == b[0] && BytesLess(a[1..], b[1..]));
    assert BytesLess(a[1..], b[1..]) <==> a[1] < b[1] || (a[1] == b[1] && BytesLess(a[2..], b[2..])) by {
      assert a[1..][1..] == a[2..] && b[1..][1..] == b[2..];
    }
    assert BytesLess(a[2..], b[2..]) <==> a[2] < b[2] || (a[2] == b[2] && BytesLess(a[3..], b[3..])) by {
      assert a[2..][1..] == a[3..] && b[2..][1..] == b[3..];
    }
    assert BytesLess(a[3..], b[3..]) <==> a[3] < b[3] by {
      assert a[3..][1..] == [] && b[3..][1..] == [];
    }
  }

  function EncodedLength<M>(c: Codec<M>, m: M): nat { |c.encode(m)| + HEADER_LENGTH }

  /** The length is written as a 32-bit number, truncating longer ones. */
  function Encode<M>(c: Codec<M>, m: M): (r: Bytes)
    ensures |r| == EncodedLength(c, m)
  {
    BigEndian(|c.encode(m)| % TWO_TO_32) + c.encode(m)
  }

  datatype Outcome<+M> = NeedMoreData | Decoded(item: M, consumed: nat) | Failed

  function Decode<M>(c: Codec<M>, data: Bytes): (r: Outcome<M>)
    ensures r.Decoded? ==> HEADER_LENGTH <= r.consumed <= |data|
  {
    if |data| < HEADER_LENGTH then NeedMoreData
    else
      var end := FromBigEndian(data[..HEADER_LENGTH]) + HEADER_LENGTH;
      if |data| < end then NeedMoreData
      else
        var item := c.decode(data[HEADER_LENGTH..end]);
        if item.None? then Failed else Decoded(item.value, end)
  }

  lemma {:induction false} FrameHeader<M>(c: Codec<M>, m: M, rest: Bytes)
    ensures var data := Encode(c, m) + rest;
            && data[..HEADER_LENGTH] == BigEndian(|c.encode(m)| % TWO_TO_32)
            && data[HEADER_LENGTH..EncodedLength(c, m)] == c.encode(m)
  {}

  /** Whatever follows a frame, decoding yields exactly its message and its bytes if and only
      if the message's length fits in the header. */
  lemma {:induction false} FrameRoundTrip<M(!new)>(c: Codec<M>, m: M, rest: Bytes)
    requires Faithful(c)
    ensures Decode(c, Encode(c, m) + rest) == Decoded(m, EncodedLength(c, m)) <==> |c.encode(m)| < TWO_TO_32
  {
    FrameHeader(c, m, rest);
    BigEndianRoundTrip(|c.encode(m)| % TWO_TO_32);
    hide FromBigEndian, BigEndian, Encode;
  }

  /** Bytes sent as they are. */
  const Verbatim: Codec<Bytes> := Codec(b => b, b => Some(b))

  /** A message of 2^32 bytes or more is read as a shorter one: the bytes left over are taken for the
      next frame. A message of exactly 2^32 bytes arrives as the empty one. */
  lemma {:induction false} LongMessageCut(m: Bytes, rest: Bytes)
    requires |m| >= TWO_TO_32
    ensures var n := |m| % TWO_TO_32;
            && Decode(Verbatim, Encode(Verbatim, m) + rest) == Decoded(m[..n], n + HEADER_LENGTH)
            && n + HEADER_LENGTH < |Encode(Verbatim, m)| && m[..n] != m
            && (|m| == TWO_TO_32 ==> n == 0)
  {
    var n := |m| % TWO_TO_32;
    var data := Encode(Verbatim, m) + rest;
    FrameHeader(Verbatim, m, rest);
    BigEndianRoundTrip(n);
    assert data[HEADER_LENGTH..n + HEADER_LENGTH] == data[HEADER_LENGTH..EncodedLength(Verbatim, m)][..n];
    hide FromBigEndian, BigEndian, Encode;
  }

  /** Until a frame is complete, its beginning decodes to nothing. */
  lemma {:induction false} FramePrefixWaits<M>(c: Codec<M>, m: M, rest: Bytes, k: nat)
    requires |c.encode(m)| < TWO_TO_32 && k < EncodedLength(c, m)
    ensures Decode(c, (Encode(c, m) + rest)[..k]) == NeedMoreData
  {
    hide FromBigEndian, BigEndian, Encode;
    var data := Encode(c, m) + rest;
    FrameHeader(c, m, rest);
    BigEndianRoundTrip(|c.encode(m)|);
    if k >= HEADER_LENGTH {
      assert data[..k][..HEADER_LENGTH] == data[..HEADER_LENGTH];
      assert FromBigEndian(data[..k][..HEADER_LENGTH]) == |c.encode(m)|;
    }
  }

  /** The byte stream of a sequence of messages. */
  function EncodeAll<M>(c: Codec<M>, ms: seq<M>): Bytes {
    if ms == [] then [] else Encode(c, ms[0]) + EncodeAll(c, ms[1..])
  }

  lemma {:induction false} EncodeAllConcat<M>(c: Codec<M>, a: seq<M>, b: seq<M>)
    ensures EncodeAll(c, a + b) == EncodeAll(c, a) + EncodeAll(c, b)
  {
    hide Encode;
    if a == [] {
      assert a + b == b;
    } else {
      assert (a + b)[0] == a[0] && (a + b)[1..] == a[1..] + b;
      EncodeAllConcat(c, a[1..], b);
    }
  }

  /** Messages whose lengths fit in the header. */
  predicate AllFit<M>(c: Codec<M>, ms: seq<M>) {
    forall i :: 0 <= i < |ms| ==> |c.encode(ms[i])| < TWO_TO_32
  }

  /** Decoding the front of a stream of messages: the first message when it is complete, and
      otherwise nothing yet; never a failure. */
  lemma {:induction false} StreamFront<M(!new)>(c: Codec<M>, ms: seq<M>, front: Bytes, rest: Bytes)
    requires Faithful(c) && AllFit(c, ms)
    requires front + rest == EncodeAll(c, ms)
    ensures ms == [] ==> front == []
    ensures Decode(c, front) ==
            if ms != [] && |front| >= EncodedLength(c, ms[0]) then Decoded(ms[0], EncodedLength(c, ms[0]))
            else NeedMoreData
    ensures ms != [] && |front| >= EncodedLength(c, ms[0])
            ==> front[EncodedLength(c, ms[0])..] + rest == EncodeAll(c, ms[1..])
  {
    hide FromBigEndian, BigEndian, Encode;
    if ms != [] {
      var n := EncodedLength(c, ms[0]);
      var tail := EncodeAll(c, ms[1..]);
      var head := Encode(c, ms[0]);
      if |front| >= n {
        assert front == head + front[n..] by {
          assert (front + rest)[..n] == (head + tail)[..n];
          assert (front + rest)[..n] == front[..n] && (head + tail)[..n] == head;
        }
        FrameRoundTrip(c, ms[0], front[n..]);
        assert front[n..] + rest == (front + rest)[n..] && (head + tail)[n..] == tail;
      } else {
        FramePrefixWaits(c, ms[0], tail, |front|);
        assert (front + rest)[..|front|] == front;
      }
    }
  }
}
