/** The packed byte format of `encode_multisend_transactions`, with a decoder of the documented layout:
    1 byte operation, 20 bytes address, 32 bytes value, 32 bytes big-endian length, then the data. */
module MultiSend {
  import opened Common

  datatype Call = Call(to: seq<Byte>, data: seq<Byte>)

  const ADDRESS_LEN := 20
  const WORD_LEN := 32
  const HEADER_LEN := 85
  const TWO64: nat := 0x1_0000_0000_0000_0000

  /** The calls the encoder is given: addresses are 20 bytes by type. */
  predicate WellTyped(calls: seq<Call>) {
    forall i :: 0 <= i < |calls| ==> |calls[i].to| == ADDRESS_LEN
  }

  function Pow256(n: nat): (r: nat)
    ensures r > 0
  {
    if n == 0 then 1 else 256 * Pow256(n - 1)
  }

  /** `width` big-endian bytes of `v`, the higher ones cut off. */
  function BigEndian(v: nat, width: nat): (r: seq<Byte>)
    ensures |r| == width
    decreases v, width
  {
    if width == 0 then [] else BigEndian(v / 256, width - 1) + [v % 256]
  }

  function FromBigEndian(bytes: seq<Byte>): nat {
    if bytes == [] then 0 else 256 * FromBigEndian(bytes[..|bytes| - 1]) + bytes[|bytes| - 1]
  }

  function Zeros(n: nat): (r: seq<Byte>)
    ensures |r| == n && forall i :: 0 <= i < n ==> r[i] == 0
  {
    seq(n, _ => 0)
  }

  /** The length word: `data.len() as u64` in the last eight of 32 bytes. */
  function LengthWord(n: nat): (r: seq<Byte>)
    ensures |r| == WORD_LEN
  {
    Zeros(24) + BigEndian(n, 8)
  }

  function EncodeCall(c: Call): seq<Byte> {
    [0] + c.to + Zeros(WORD_LEN) + LengthWord(|c.data|) + c.data
  }

  function Encode(calls: seq<Call>): seq<Byte> {
    if calls == [] then [] else Encode(calls[..|calls| - 1]) + EncodeCall(calls[|calls| - 1])
  }

  method EncodeMultisendTransactions(calls: seq<Call>) returns (packed: seq<Byte>)
    ensures packed == Encode(calls)
  {
    packed := [];
    for i := 0 to |calls|
      invariant packed == Encode(calls[..i])
    {
      packed := packed + [0];
      packed := packed + calls[i].to;
      packed := packed + Zeros(32);
      packed := packed + LengthWord(|calls[i].data|);
      packed := packed + calls[i].data;
      assert calls[..i + 1][..i] == calls[..i];
      assert packed == Encode(calls[..i]) + EncodeCall(calls[i]);
    }
    assert calls[..|calls|] == calls;
  }

  /** Reads calls from the front until the bytes run out; none if they do not fit the layout. */
  function Decode(bytes: seq<Byte>): Option<seq<Call>>
    decreases |bytes|
  {
    if bytes == [] then Some([])
    else if |bytes| < HEADER_LEN || bytes[0] != 0 || bytes[21..53] != Zeros(WORD_LEN) then None
    else
      var n := FromBigEndian(bytes[53..HEADER_LEN]);
      if n >= TWO64 || |bytes| < HEADER_LEN + n then None
      else
        var rest := Decode(bytes[HEADER_LEN + n..]);
        if rest.None? then None
        else Some([Call(bytes[1..21], bytes[HEADER_LEN..HEADER_LEN + n])] + rest.value)
  }

  lemma Pow256Of8()
    ensures Pow256(8) == TWO64
  {
  }

  lemma ModUnique(v: int, m: int, q: int, r: int)
    requires m > 0 && 0 <= r < m && v == m * q + r
    ensures v % m == r
  {
    var d := v / m - q;
    assert v == m * (v / m) + v % m;
    assert m * d == r - v % m by { assert m * d == m * (v / m) - m * q; }
    assert d >= 1 ==> m * d >= m;
    assert d <= -1 ==> m * d <= -m;
  }

  lemma ModOfParts(v: nat, hi: nat, lo: nat, p: nat)
    requires v == 256 * hi + lo && lo < 256 && p > 0
    ensures v % (256 * p) == 256 * (hi % p) + lo
  {
    var q := hi / p;
    assert hi == p * q + hi % p;
    assert 256 * (p * q) == (256 * p) * q;
    ModUnique(v, 256 * p, q, 256 * (hi % p) + lo);
  }

  lemma {:induction false} BigEndianInverse(v: nat, width: nat)
    ensures FromBigEndian(BigEndian(v, width)) == v % Pow256(width)
  {
    if width > 0 {
      BigEndianInverse(v / 256, width - 1);
      assert BigEndian(v, width)[..width - 1] == BigEndian(v / 256, width - 1);
      ModOfParts(v, v / 256, v % 256, Pow256(width - 1));
    }
  }

  lemma {:induction false} FromBigEndianInverse(bytes: seq<Byte>)
    ensures BigEndian(FromBigEndian(bytes), |bytes|) == bytes
  {
    if bytes != [] {
      var front, last := bytes[..|bytes| - 1], bytes[|bytes| - 1];
      FromBigEndianInverse(front);
      assert FromBigEndian(bytes) / 256 == FromBigEndian(front) && FromBigEndian(bytes) % 256 == last;
      assert bytes == front + [last];
    }
  }

  lemma {:induction false} LeadingZeros(n: nat, tail: seq<Byte>)
    ensures FromBigEndian(Zeros(n) + tail) == FromBigEndian(tail)
  {
    var all := Zeros(n) + tail;
    if tail != [] {
      assert all[..|all| - 1] == Zeros(n) + tail[..|tail| - 1];
      LeadingZeros(n, tail[..|tail| - 1]);
    } else if n > 0 {
      assert all == Zeros(n) && all[..|all| - 1] == Zeros(n - 1) + [];
      LeadingZeros(n - 1, []);
    } else {
      assert all == [];
    }
  }

  lemma LengthWordReads(n: nat)
    ensures FromBigEndian(LengthWord(n)) == n % TWO64
  {
    Pow256Of8();
    LeadingZeros(24, BigEndian(n, 8));
    BigEndianInverse(n, 8);
  }

  lemma Regroup<T>(a: seq<T>, b: seq<T>, c: seq<T>)
    ensures a + b + c == a + (b + c)
  {
  }

  lemma {:induction false} EncodeConcat(a: seq<Call>, b: seq<Call>)
    ensures Encode(a + b) == Encode(a) + Encode(b)
  {
    if b == [] {
      assert a + b == a;
    } else {
      var front, last := b[..|b| - 1], b[|b| - 1];
      assert (a + b)[..|a + b| - 1] == a + front && (a + b)[|a + b| - 1] == last;
      EncodeConcat(a, front);
      Regroup(Encode(a), Encode(front), EncodeCall(last));
    }
  }

  lemma EncodeFirst(c: Call, more: seq<Call>)
    ensures Encode([c] + more) == EncodeCall(c) + Encode(more)
  {
    EncodeConcat([c], more);
    assert [c][..0] == [] && Encode([c]) == Encode([]) + EncodeCall(c);
  }

  ghost function TotalLength(calls: seq<Call>): nat {
    if calls == [] then 0 else TotalLength(calls[..|calls| - 1]) + HEADER_LEN + |calls[|calls| - 1].data|
  }

  lemma {:induction false} EncodedLength(calls: seq<Call>)
    requires WellTyped(calls)
    ensures |Encode(calls)| == TotalLength(calls)
  {
    if calls != [] { EncodedLength(calls[..|calls| - 1]); }
  }

  lemma Rejoin(s: seq<Byte>, i: nat, j: nat, k: nat, l: nat, m: nat)
    requires i <= j <= k <= l <= m <= |s|
    ensures s[..i] + s[i..j] + s[j..k] + s[k..l] + s[l..m] + s[m..] == s
  {
  }

  /** Where each part of an encoded call lies. */
  lemma Layout(c: Call, tail: seq<Byte>)
    requires |c.to| == ADDRESS_LEN
    ensures
      var b, n := EncodeCall(c) + tail, |c.data|;
      && |b| == HEADER_LEN + n + |tail| && b[0] == 0 && b[1..21] == c.to && b[21..53] == Zeros(WORD_LEN)
      && b[53..HEADER_LEN] == LengthWord(n) && b[HEADER_LEN..HEADER_LEN + n] == c.data && b[HEADER_LEN + n..] == tail
  {
  }

  /** The first call of some bytes and what is left behind it. */
  ghost predicate StartsWith(bytes: seq<Byte>, c: Call, tail: seq<Byte>) {
    var n := |c.data|;
    && HEADER_LEN + n <= |bytes| && bytes[0] == 0 && bytes[21..53] == Zeros(WORD_LEN)
    && FromBigEndian(bytes[53..HEADER_LEN]) == n < TWO64
    && c.to == bytes[1..21] && c.data == bytes[HEADER_LEN..HEADER_LEN + n] && tail == bytes[HEADER_LEN + n..]
  }

  lemma DecodeStep(bytes: seq<Byte>, c: Call, tail: seq<Byte>)
    requires StartsWith(bytes, c, tail)
    ensures Decode(bytes) == if Decode(tail).None? then None else Some([c] + Decode(tail).value)
  {
  }

  /** Reading one encoded call off the front. */
  lemma DecodeOne(c: Call, tail: seq<Byte>, bytes: seq<Byte>)
    requires |c.to| == ADDRESS_LEN && |c.data| < TWO64
    requires bytes == EncodeCall(c) + tail
    ensures Decode(bytes) == if Decode(tail).None? then None else Some([c] + Decode(tail).value)
  {
    Layout(c, tail);
    LengthWordReads(|c.data|);
    DecodeStep(bytes, c, tail);
  }

  lemma {:induction false} RoundTrip(calls: seq<Call>, tail: seq<Byte>)
    requires WellTyped(calls) && forall i :: 0 <= i < |calls| ==> |calls[i].data| < TWO64
    requires Decode(tail).Some?
    ensures Decode(Encode(calls) + tail) == Some(calls + Decode(tail).value)
  {
    if calls == [] {
      assert Encode(calls) + tail == tail && calls + Decode(tail).value == Decode(tail).value;
    } else {
      var front, last := calls[..|calls| - 1], calls[|calls| - 1];
      var code := EncodeCall(last);
      DecodeOne(last, tail, code + tail);
      RoundTrip(front, code + tail);
      Regroup(Encode(front), code, tail);
      Regroup(front, [last], Decode(tail).value);
      assert calls == front + [last];
    }
  }

  lemma FirstCall(bytes: seq<Byte>) returns (c: Call, rest: seq<Byte>)
    requires Decode(bytes).Some? && bytes != []
    ensures StartsWith(bytes, c, rest) && Decode(rest).Some? && Decode(bytes).value == [c] + Decode(rest).value
    ensures |rest| < |bytes|
  {
    var n := FromBigEndian(bytes[53..HEADER_LEN]);
    c, rest := Call(bytes[1..21], bytes[HEADER_LEN..HEADER_LEN + n]), bytes[HEADER_LEN + n..];
  }

  lemma OwnBytes(n: nat, bytes: seq<Byte>)
    requires FromBigEndian(bytes) == n
    ensures BigEndian(n, |bytes|) == bytes
  {
    FromBigEndianInverse(bytes);
  }

  /** A 32-byte word below 2^64 is its own length word. */
  lemma WordOf(n: nat)
    requires n < TWO64
    ensures BigEndian(n, |LengthWord(n)|) == LengthWord(n)
  {
    LengthWordReads(n);
    OwnBytes(n, LengthWord(n));
  }

  lemma HeaderIsExact(bytes: seq<Byte>, c: Call, rest: seq<Byte>)
    requires StartsWith(bytes, c, rest)
    ensures bytes == EncodeCall(c) + rest
  {
    FromBigEndianInverse(bytes[53..HEADER_LEN]);
    WordOf(|c.data|);
    Rejoin(bytes, 1, 21, 53, HEADER_LEN, HEADER_LEN + |c.data|);
    assert bytes[..1] == [0];
  }

  /** Whatever the decoder accepts is an encoding of what it returns: no other bytes decode to those calls. */
  lemma {:induction false} DecodeIsExact(bytes: seq<Byte>)
    requires Decode(bytes).Some?
    ensures
      var calls := Decode(bytes).value;
      && WellTyped(calls) && Encode(calls) == bytes
      && forall i :: 0 <= i < |calls| ==> |calls[i].data| < TWO64
    decreases |bytes|
  {
    if bytes != [] {
      var c, rest := FirstCall(bytes);
      DecodeIsExact(rest);
      EncodeFirst(c, Decode(rest).value);
      HeaderIsExact(bytes, c, rest);
    }
  }

  /** Packing loses nothing exactly on the lists whose data are shorter than 2^64 bytes. */
  lemma UniquelyDecodable(calls: seq<Call>)
    requires WellTyped(calls)
    ensures Decode(Encode(calls)) == Some(calls) <==> forall i :: 0 <= i < |calls| ==> |calls[i].data| < TWO64
  {
    if Decode(Encode(calls)) == Some(calls) {
      DecodeIsExact(Encode(calls));
    }
    if forall i :: 0 <= i < |calls| ==> |calls[i].data| < TWO64 {
      RoundTrip(calls, []);
      assert Encode(calls) + [] == Encode(calls) && calls + [] == calls;
    }
  }
}
