/**
  An independent reference for the classifier: address blocks written the
  way the IANA special-purpose registries and the RFCs write them, as CIDR
  prefixes `network/len`, and lists of such blocks. An address lies in
  `network/len` when its leading `len` bits equal those of `network`.
*/
module Blocks {
  /** Prefix lengths. They are kept as bytes so that the shifts below stay
      bit-vector operations. */
  type Len4 = n: bv8 | n <= 32
  type Len6 = n: bv8 | n <= 128

  /** An IPv4 block `network/len`, on the 32-bit big-endian value. */
  datatype Prefix4 = Prefix4(network: bv32, len: Len4) {
    predicate Contains(v: bv32) {
      v >> (32 - len) == network >> (32 - len)
    }
  }

  /** An IPv6 block `network/len`, on the 128-bit big-endian value. */
  datatype Prefix6 = Prefix6(network: bv128, len: Len6) {
    predicate Contains(v: bv128) {
      v >> (128 - len) == network >> (128 - len)
    }
  }

  /** Membership in any block of a list, looked up in order. */
  predicate InAny4(v: bv32, blocks: seq<Prefix4>)
  {
    |blocks| > 0 && (blocks[0].Contains(v) || InAny4(v, blocks[1..]))
  }

  predicate InAny6(v: bv128, blocks: seq<Prefix6>)
  {
    |blocks| > 0 && (blocks[0].Contains(v) || InAny6(v, blocks[1..]))
  }

  /** The list may be split anywhere: looking up `xs + ys` is looking up
      `xs` or looking up `ys`. */
  lemma {:induction false} InAny4Append(v: bv32, xs: seq<Prefix4>, ys: seq<Prefix4>)
    ensures InAny4(v, xs + ys) <==> InAny4(v, xs) || InAny4(v, ys)
    decreases |xs|
  {
    if |xs| > 0 {
      assert (xs + ys)[0] == xs[0];
      assert (xs + ys)[1..] == xs[1..] + ys;
      InAny4Append(v, xs[1..], ys);
    } else {
      assert xs + ys == ys;
    }
  }

  lemma {:induction false} InAny6Append(v: bv128, xs: seq<Prefix6>, ys: seq<Prefix6>)
    ensures InAny6(v, xs + ys) <==> InAny6(v, xs) || InAny6(v, ys)
    decreases |xs|
  {
    if |xs| > 0 {
      assert (xs + ys)[0] == xs[0];
      assert (xs + ys)[1..] == xs[1..] + ys;
      InAny6Append(v, xs[1..], ys);
    } else {
      assert xs + ys == ys;
    }
  }

  /** A one-block list is that block. */
  lemma InAny4Single(v: bv32, p: Prefix4)
    ensures InAny4(v, [p]) <==> p.Contains(v)
  {
  }

  lemma InAny6Single(v: bv128, p: Prefix6)
    ensures InAny6(v, [p]) <==> p.Contains(v)
  {
  }

  /** Unfolding a three-block list into its blocks. */
  lemma InAny4Three(v: bv32, p: Prefix4, q: Prefix4, r: Prefix4)
    ensures InAny4(v, [p, q, r]) <==> p.Contains(v) || q.Contains(v) || r.Contains(v)
  {
    assert [p, q, r][1..] == [q, r];
    assert [q, r][1..] == [r];
    InAny4Single(v, r);
    assert InAny4(v, [q, r]) <==> q.Contains(v) || InAny4(v, [r]);
  }

  lemma InAny6Three(v: bv128, p: Prefix6, q: Prefix6, r: Prefix6)
    ensures InAny6(v, [p, q, r]) <==> p.Contains(v) || q.Contains(v) || r.Contains(v)
  {
    assert [p, q, r][1..] == [q, r];
    assert [q, r][1..] == [r];
    InAny6Single(v, r);
    assert InAny6(v, [q, r]) <==> q.Contains(v) || InAny6(v, [r]);
  }
}
