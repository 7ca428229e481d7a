/**
 The packed topic-counts blob: one unsigned LEB128 varint per count (section 7.6 of DWARF 5).
 Python's integers are unbounded, so counts are naturals of any size.
 `n & 0x7F` is `n % 128`, `n >>= 7` is `n / 128`, and setting bit 7 of a 7-bit value adds 128.
 */
module Varint {
  import opened Basics

  datatype Decoded = Value(value: nat, next: nat) | Truncated

  // ---- Specification ----

  function Encode(n: nat): seq<byte>
  {
    if n < 128 then [n] else [n % 128 + 128] + Encode(n / 128)
  }

  function DecodeAt(data: seq<byte>, pos: nat): Decoded
    decreases |data| - pos
  {
    if pos >= |data| then Truncated
    else if data[pos] < 128 then Value(data[pos], pos + 1)
    else
      match DecodeAt(data, pos + 1)
      case Truncated => Truncated
      case Value(v, next) => Value(data[pos] - 128 + 128 * v, next)
  }

  function EncodeCounts(counts: seq<nat>): seq<byte>
  {
    if counts == [] then [] else Encode(counts[0]) + EncodeCounts(counts[1..])
  }

  /** Decoding from `pos` to the end of the blob; `None` is the "truncated varint" error. */
  function DecodeCountsFrom(blob: seq<byte>, pos: nat): Option<seq<nat>>
    decreases |blob| - pos
  {
    if pos >= |blob| then Some([])
    else
      match DecodeAt(blob, pos)
      case Truncated => None
      case Value(v, next) =>
        DecodeAdvances(blob, pos);
        match DecodeCountsFrom(blob, next)
        case None => None
        case Some(rest) => Some([v] + rest)
  }

  lemma DecodeAdvances(data: seq<byte>, pos: nat)
    ensures DecodeAt(data, pos).Value? ==> pos < DecodeAt(data, pos).next <= |data|
    decreases |data| - pos
  {
    if pos < |data| && data[pos] >= 128 {
      DecodeAdvances(data, pos + 1);
    }
  }

  // ---- The codec's loops ----

  /** A negative value is refused; otherwise the loop emits exactly `Encode(n)`. */
  method EncodeVarint(n: int) returns (r: Option<seq<byte>>)
    ensures r == if n < 0 then None else Some(Encode(n))
  {
    if n < 0 {
      return None;
    }
    var out: seq<byte> := [];
    var m: nat := n;
    while m >= 128
      invariant out + Encode(m) == Encode(n)
    {
      assert Encode(m) == [m % 128 + 128] + Encode(m / 128);
      assert out + [m % 128 + 128] + Encode(m / 128) == out + Encode(m);
      out := out + [m % 128 + 128];
      m := m / 128;
    }
    return Some(out + [m]);
  }

  /** What has been read so far (`result`, below `scale`), followed by the rest of the number. */
  function Combine(result: nat, scale: nat, rest: Decoded): Decoded
  {
    match rest
    case Truncated => Truncated
    case Value(v, next) => Value(result + scale * v, next)
  }

  lemma CombineNothing(rest: Decoded)
    ensures Combine(0, 1, rest) == rest
  {
  }

  lemma CombineStep(data: seq<byte>, p: nat, result: nat, scale: nat)
    requires p < |data| && result < scale
    ensures var low := data[p] % 128;
            && result + scale * low < scale * 128
            && Combine(result, scale, DecodeAt(data, p)) ==
               if data[p] < 128 then Value(result + scale * low, p + 1)
               else Combine(result + scale * low, scale * 128, DecodeAt(data, p + 1))
  {
    var low := data[p] % 128;
    DigitFits(result, scale, low);
    if data[p] >= 128 && DecodeAt(data, p + 1).Value? {
      ScaleStep(scale, low, DecodeAt(data, p + 1).value);
    }
  }

  lemma DigitFits(result: nat, scale: nat, low: nat)
    requires result < scale && low < 128
    ensures result + scale * low < scale * 128
  {
    assert scale * low <= scale * 127;
  }

  lemma ScaleStep(scale: nat, low: nat, v: nat)
    ensures scale * (low + 128 * v) == scale * low + (scale * 128) * v
  {
  }

  /**
   The loop of `decode_varint`. `scale` is `1 << shift`. The invariant `result < scale` is what
   makes the source's `result |= low << shift` the sum computed here: the bits are disjoint.
   */
  method DecodeVarint(data: seq<byte>, pos: nat) returns (r: Decoded)
    ensures r == DecodeAt(data, pos)
  {
    hide Combine;
    var result: nat := 0;
    var scale: nat := 1;
    var p := pos;
    CombineNothing(DecodeAt(data, pos));
    while true
      invariant result < scale
      invariant DecodeAt(data, pos) == Combine(result, scale, DecodeAt(data, p))
      decreases |data| - p
    {
      if p >= |data| {
        CombineTruncated(result, scale);
        return Truncated;
      }
      var low: nat := data[p] % 128;
      CombineStep(data, p, result, scale);
      result := result + scale * low;
      if data[p] < 128 {
        return Value(result, p + 1);
      }
      scale := scale * 128;
      p := p + 1;
    }
  }

  lemma CombineTruncated(result: nat, scale: nat)
    ensures Combine(result, scale, Truncated) == Truncated
  {
  }

  method DecodeCountsBlob(blob: seq<byte>) returns (r: Option<seq<nat>>)
    ensures r == DecodeCountsFrom(blob, 0)
  {
    var counts: seq<nat> := [];
    var pos: nat := 0;
    assert DecodeCountsFrom(blob, 0).Some? ==> [] + DecodeCountsFrom(blob, 0).value == DecodeCountsFrom(blob, 0).value;
    while pos < |blob|
      invariant DecodeCountsFrom(blob, pos).None? ==> DecodeCountsFrom(blob, 0).None?
      invariant DecodeCountsFrom(blob, pos).Some? ==>
                  DecodeCountsFrom(blob, 0) == Some(counts + DecodeCountsFrom(blob, pos).value)
      decreases |blob| - pos
    {
      var d := DecodeVarint(blob, pos);
      DecodeAdvances(blob, pos);
      match d {
        case Truncated =>
          return None;
        case Value(v, next) =>
          ghost var rest := DecodeCountsFrom(blob, next);
          if rest.Some? {
            assert counts + ([v] + rest.value) == (counts + [v]) + rest.value;
          }
          counts := counts + [v];
          pos := next;
      }
    }
    assert counts + [] == counts;
    return Some(counts);
  }

  // ---- Inverse laws ----

  /** A varint decodes to itself wherever it sits, and decoding stops exactly behind it. */
  lemma {:induction false} DecodeEncode(before: seq<byte>, n: nat, after: seq<byte>)
    ensures DecodeAt(before + Encode(n) + after, |before|) == Value(n, |before| + |Encode(n)|)
    decreases n
  {
    var data := before + Encode(n) + after;
    if n < 128 {
      assert data[|before|] == n;
    } else {
      var head: byte := n % 128 + 128;
      assert data[|before|] == head;
      assert data == (before + [head]) + Encode(n / 128) + after;
      DecodeEncode(before + [head], n / 128, after);
    }
  }

  /** A varint cut anywhere before its end is reported as truncated, never misread. */
  lemma {:induction false} CutVarintIsTruncated(before: seq<byte>, n: nat, keep: nat)
    requires keep < |Encode(n)|
    ensures DecodeAt(before + Encode(n)[..keep], |before|) == Truncated
    decreases n
  {
    if keep > 0 {
      var head: byte := n % 128 + 128;
      assert Encode(n)[..keep] == [head] + Encode(n / 128)[..keep - 1];
      assert before + Encode(n)[..keep] == (before + [head]) + Encode(n / 128)[..keep - 1];
      CutVarintIsTruncated(before + [head], n / 128, keep - 1);
    }
  }

  lemma EncodeNonEmpty(n: nat)
    ensures |Encode(n)| > 0
  {
  }

  lemma {:induction false} CountsRoundTripFrom(before: seq<byte>, counts: seq<nat>)
    ensures DecodeCountsFrom(before + EncodeCounts(counts), |before|) == Some(counts)
    decreases |counts|
  {
    hide Encode, DecodeAt;
    var blob := before + EncodeCounts(counts);
    if counts != [] {
      var here, rest := Encode(counts[0]), EncodeCounts(counts[1..]);
      assert blob == before + here + rest;
      DecodeEncode(before, counts[0], rest);
      CountsRoundTripFrom(before + here, counts[1..]);
      assert (before + here) + rest == blob;
      EncodeNonEmpty(counts[0]);
      assert [counts[0]] + counts[1..] == counts;
    } else {
      assert blob == before;
    }
  }

  /** Packing and unpacking are inverse on every list of naturals, zeros included. */
  lemma CountsRoundTrip(counts: seq<nat>)
    ensures DecodeCountsFrom(EncodeCounts(counts), 0) == Some(counts)
  {
    CountsRoundTripFrom([], counts);
    assert [] + EncodeCounts(counts) == EncodeCounts(counts);
  }

  /** Hence the blob determines the counts: no two count lists share a blob. */
  lemma CountsInjective(a: seq<nat>, b: seq<nat>)
    requires EncodeCounts(a) == EncodeCounts(b)
    ensures a == b
  {
    CountsRoundTrip(a);
    CountsRoundTrip(b);
  }
}
