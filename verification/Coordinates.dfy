/** Fixed-width P-256 coordinates (section 6.2.1.2 of RFC 7518): any number of decoded bytes becomes
    the 32 bytes of the same big-endian integer, if there are such bytes. */
module Coordinates {
  import opened Common
  import opened Base64Url

  const KEY_SIZE_BYTES := 32

  /** The big-endian integer of some bytes. */
  function Value(b: Bytes): nat {
    if b == [] then 0 else 256 * Value(b[..|b| - 1]) + b[|b| - 1]
  }

  function Pow256(n: nat): nat {
    if n == 0 then 1 else 256 * Pow256(n - 1)
  }

  lemma {:induction false} ValueBounded(b: Bytes)
    ensures Value(b) < Pow256(|b|)
  {
    if b != [] {
      ValueBounded(b[..|b| - 1]);
    }
  }

  lemma {:induction false} Pow256Grows(m: nat, n: nat)
    requires m <= n
    ensures 0 < Pow256(m) <= Pow256(n)
    decreases n
  {
    if n > 0 {
      Pow256Grows(if m < n then m else n - 1, n - 1);
    }
  }

  lemma {:induction false} ValueConcat(a: Bytes, b: Bytes)
    ensures Value(a + b) == Value(a) * Pow256(|b|) + Value(b)
    decreases |b|
  {
    if b == [] {
      assert a + b == a;
    } else {
      var c := b[..|b| - 1];
      ValueConcat(a, c);
      assert (a + b)[..|a + b| - 1] == a + c;
      Distribute(Value(a), Pow256(|c|), Value(c), b[|b| - 1]);
    }
  }

  lemma Distribute(x: nat, p: nat, y: nat, z: nat)
    ensures 256 * (x * p + y) + z == x * (256 * p) + (256 * y + z)
  {
  }

  lemma {:induction false} ZerosAreNothing(zeros: Bytes, b: Bytes)
    requires forall i | 0 <= i < |zeros| :: zeros[i] == 0
    ensures Value(zeros + b) == Value(b)
    decreases |zeros|
  {
    ValueConcat(zeros, b);
    ZeroValue(zeros);
  }

  lemma {:induction false} ZeroValue(zeros: Bytes)
    requires forall i | 0 <= i < |zeros| :: zeros[i] == 0
    ensures Value(zeros) == 0
  {
    if zeros != [] {
      ZeroValue(zeros[..|zeros| - 1]);
    }
  }

  /** Bytes that begin with a non-zero one are worth at least their length. */
  lemma LeadingByte(b: Bytes)
    requires b != [] && b[0] > 0
    ensures Pow256(|b| - 1) <= Value(b)
  {
    var rest := b[1..];
    assert b == [b[0]] + rest;
    ValueConcat([b[0]], rest);
    OneByteValue(b[0]);
    hide Pow256, Value;
    AtLeastOnce(b[0], Pow256(|rest|));
  }

  lemma OneByteValue(b: Byte)
    ensures Value([b]) == b
  {
    assert [b][..0] == [];
  }

  lemma AtLeastOnce(n: nat, p: nat)
    requires n > 0
    ensures n * p >= p
  {
  }

  /** Two byte sequences of one length and one value are the same. */
  lemma {:induction false} SameLengthSameValue(a: Bytes, b: Bytes)
    requires |a| == |b| && Value(a) == Value(b)
    ensures a == b
  {
    if a != [] {
      var n := |a| - 1;
      assert a[n] == Value(a) % 256 && b[n] == Value(b) % 256;
      SameLengthSameValue(a[..n], b[..n]);
      assert a == a[..n] + [a[n]] && b == b[..n] + [b[n]];
    }
  }

  /** The 32 bytes of the same integer, or none when it does not fit. */
  predicate Fits(b: Bytes) {
    Value(b) < Pow256(KEY_SIZE_BYTES)
  }

  /** The offset at which the loop over leading zeros stops. */
  function Offset(b: Bytes, from: nat): (r: nat)
    requires from + KEY_SIZE_BYTES <= |b|
    ensures from <= r && r + KEY_SIZE_BYTES <= |b|
    decreases |b| - from
  {
    if from < |b| - KEY_SIZE_BYTES && b[from] == 0 then Offset(b, from + 1) else from
  }

  /** What DecodeComponent makes of decoded bytes; None when it throws. */
  function Normalized(b: Bytes): Option<Bytes> {
    if |b| <= KEY_SIZE_BYTES then Some(seq(KEY_SIZE_BYTES - |b|, _ => 0) + b)
    else
      var offset := Offset(b, 0);
      if |b| - offset > KEY_SIZE_BYTES then None else Some(b[offset..])
  }

  lemma {:induction false} OffsetSkipsZeros(b: Bytes, from: nat)
    requires from + KEY_SIZE_BYTES <= |b| && forall i | 0 <= i < from :: b[i] == 0
    ensures var o := Offset(b, from);
            && from <= o <= |b| - KEY_SIZE_BYTES
            && (forall i | 0 <= i < o :: b[i] == 0)
            && (o < |b| - KEY_SIZE_BYTES ==> b[o] != 0)
    decreases |b| - from
  {
    if from < |b| - KEY_SIZE_BYTES && b[from] == 0 {
      OffsetSkipsZeros(b, from + 1);
    }
  }

  /** The result has 32 bytes and the integer of the input, and it throws exactly if that integer is
      2^256 or more. */
  lemma NormalizedKeepsValue(b: Bytes)
    ensures Normalized(b).Some? <==> Fits(b)
    ensures Normalized(b).Some? ==> |Normalized(b).value| == KEY_SIZE_BYTES && Value(Normalized(b).value) == Value(b)
  {
    hide Pow256, Value;
    if |b| <= KEY_SIZE_BYTES {
      ZerosAreNothing(seq(KEY_SIZE_BYTES - |b|, _ => 0), b);
      ValueBounded(b);
      Pow256Grows(|b|, KEY_SIZE_BYTES);
    } else {
      OffsetSkipsZeros(b, 0);
      var o := Offset(b, 0);
      assert b == b[..o] + b[o..];
      ZerosAreNothing(b[..o], b[o..]);
      if |b| - o > KEY_SIZE_BYTES {
        LeadingByte(b[o..]);
        Pow256Grows(KEY_SIZE_BYTES, |b| - o - 1);
      } else {
        ValueBounded(b[o..]);
      }
    }
  }

  /** So the result is the one 32-byte form of that integer: inputs agree after it exactly if they
      agree as integers. */
  lemma NormalizedIsCanonical(a: Bytes, b: Bytes)
    requires Fits(a) && Fits(b)
    ensures Normalized(a) == Normalized(b) <==> Value(a) == Value(b)
  {
    NormalizedKeepsValue(a);
    NormalizedKeepsValue(b);
    if Value(a) == Value(b) {
      SameLengthSameValue(Normalized(a).value, Normalized(b).value);
    }
  }

  /** The whole component: text of a key, blank or not decodable or too large being an exception. */
  function Component(text: Option<string>): Option<Bytes> {
    if text.None? || Blank(text.value) then None
    else
      var bytes := Decode(text.value);
      if bytes.None? then None else Normalized(bytes.value)
  }

  /** The 32 bytes are the integer that the text encodes. */
  predicate IsCoordinate(text: Option<string>, c: Bytes) {
    && text.Some? && !Blank(text.value)
    && var bytes := Decode(text.value);
       bytes.Some? && |c| == KEY_SIZE_BYTES && Value(c) == Value(bytes.value)
  }

  /** A component is the 32-byte form of the integer that its text encodes, and there is none exactly
      if the text encodes none, or one of 2^256 or more. */
  lemma ComponentIs(text: Option<string>, c: Bytes)
    ensures Component(text) == Some(c) <==> IsCoordinate(text, c)
    ensures Component(text).None? <==> text.None? || Blank(text.value) || Decode(text.value).None? || !Fits(Decode(text.value).value)
  {
    if text.Some? && !Blank(text.value) && Decode(text.value).Some? {
      var bytes := Decode(text.value).value;
      NormalizedKeepsValue(bytes);
      if |c| == KEY_SIZE_BYTES && Value(c) == Value(bytes) {
        ValueBounded(c);
        hide Pow256, Value, Decode, Normalized;
        SameLengthSameValue(c, Normalized(bytes).value);
      }
    }
  }

  /** DecodeComponent, with its loop over leading zeros and its padded buffer. None when it throws. */
  method DecodeComponent(text: Option<string>) returns (r: Option<array<Byte>>)
    ensures r.None? <==> Component(text).None?
    ensures r.Some? ==> fresh(r.value) && r.value[..] == Component(text).value
  {
    hide Blank, Decode;
    if text.None? || Blank(text.value) {
      return None;
    }
    var decoded := Decode(text.value);
    if decoded.None? {
      return None;
    }
    var bytes := decoded.value;
    if |bytes| > KEY_SIZE_BYTES {
      var offset := 0;
      while offset < |bytes| - KEY_SIZE_BYTES && bytes[offset] == 0
        invariant 0 <= offset <= |bytes| - KEY_SIZE_BYTES
        invariant Offset(bytes, offset) == Offset(bytes, 0)
      {
        offset := offset + 1;
      }
      if |bytes| - offset > KEY_SIZE_BYTES {
        return None;
      }
      bytes := bytes[offset..];
    }
    var start := KEY_SIZE_BYTES - |bytes|;
    var padded := new Byte[KEY_SIZE_BYTES](i requires 0 <= i < KEY_SIZE_BYTES => if i < start then 0 else bytes[i - start]);
    assert padded[..] == seq(start, _ => 0) + bytes;
    return Some(padded);
  }
}
