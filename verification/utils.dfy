/**
  Byte-layout and seat-assignment helpers of the primitives crate: the
  little-endian index encoding, block/shard keys, salted nonces and the split
  of validator seats across shards.
 */
module Utils {
  import opened Primitives

  // ----- little-endian encoding -----

  function Pow256(n: nat): (p: nat)
    ensures p >= 1
  {
    if n == 0 then 1 else 256 * Pow256(n - 1)
  }

  /** The `n` least significant base-256 digits of `x`, least significant first. */
  function LeBytes(x: nat, n: nat): (r: seq<u8>)
    ensures |r| == n
  {
    if n == 0 then [] else [x % 256] + LeBytes(x / 256, n - 1)
  }

  /** The reference reading of a little-endian byte string: byte `i` weighs `256^i`. */
  function DecodeLe(bytes: seq<u8>): nat
  {
    if |bytes| == 0 then 0 else bytes[0] + 256 * DecodeLe(bytes[1..])
  }

  lemma {:induction false} DecodeLeBound(bytes: seq<u8>)
    ensures DecodeLe(bytes) < Pow256(|bytes|)
  {
    if |bytes| > 0 {
      DecodeLeBound(bytes[1..]);
    }
  }

  /** Encoding a value that fits in `n` bytes and reading it back gives the value. */
  lemma {:induction false} DecodeLeBytes(x: nat, n: nat)
    requires x < Pow256(n)
    ensures DecodeLe(LeBytes(x, n)) == x
  {
    if n > 0 {
      var rest := LeBytes(x / 256, n - 1);
      assert LeBytes(x, n)[1..] == rest;
      assert x / 256 < Pow256(n - 1) by {
        assert 256 * (x / 256) <= x < 256 * Pow256(n - 1);
      }
      DecodeLeBytes(x / 256, n - 1);
    }
  }

  /** Reading any byte string and encoding the value at the same width gives the bytes back. */
  lemma {:induction false} LeBytesOfDecode(bytes: seq<u8>)
    ensures LeBytes(DecodeLe(bytes), |bytes|) == bytes
  {
    if |bytes| > 0 {
      var d := DecodeLe(bytes);
      assert d % 256 == bytes[0] && d / 256 == DecodeLe(bytes[1..]);
      LeBytesOfDecode(bytes[1..]);
    }
  }

  /** `index_to_bytes`: the eight little-endian bytes of a `u64`. */
  function IndexToBytes(index: u64): (r: seq<u8>)
    ensures |r| == 8
    ensures DecodeLe(r) == index
  {
    assert Pow256(8) == 0x1_0000_0000_0000_0000;
    DecodeLeBytes(index, 8);
    LeBytes(index, 8)
  }

  /** Every eight-byte string is the encoding of exactly one `u64`. */
  lemma IndexToBytesOnto(bytes: seq<u8>)
    requires |bytes| == 8
    ensures DecodeLe(bytes) < 0x1_0000_0000_0000_0000
    ensures IndexToBytes(DecodeLe(bytes)) == bytes
  {
    DecodeLeBound(bytes);
    assert Pow256(8) == 0x1_0000_0000_0000_0000;
    LeBytesOfDecode(bytes);
  }

  lemma IndexToBytesInjective(a: u64, b: u64)
    requires IndexToBytes(a) == IndexToBytes(b)
    ensures a == b
  {
  }

  // ----- keys and nonces -----

  /** `get_block_shard_id`: the block hash followed by the little-endian shard id. */
  function GetBlockShardId(blockHash: CryptoHash, shardId: u64): (r: seq<u8>)
    ensures |r| == 40
    ensures r[..32] == blockHash
    ensures DecodeLe(r[32..]) == shardId
  {
    var r := blockHash + IndexToBytes(shardId);
    assert r[32..] == IndexToBytes(shardId);
    r
  }

  /** Distinct (block, shard) pairs get distinct keys. */
  lemma GetBlockShardIdInjective(h1: CryptoHash, s1: u64, h2: CryptoHash, s2: u64)
    requires GetBlockShardId(h1, s1) == GetBlockShardId(h2, s2)
    ensures h1 == h2 && s1 == s2
  {
    var k := GetBlockShardId(h1, s1);
    assert h1 == k[..32] == h2;
    assert s1 == DecodeLe(k[32..]) == s2;
  }

  /**
    `create_nonce_with_nonce`: the hash of the base hash followed by the
    little-endian salt. The hash function is a parameter.
   */
  function CreateNonceWithNonce(hash: seq<u8> -> CryptoHash, base: CryptoHash, salt: u64): (r: CryptoHash)
    ensures r == hash(GetBlockShardId(base, salt))
  {
    hash(base + IndexToBytes(salt))
  }

  /**
    Two different (base, salt) pairs hash two different 40-byte strings, so
    equal nonces from them are a collision of the hash itself.
   */
  lemma CreateNonceCollisionIsHashCollision(hash: seq<u8> -> CryptoHash, b1: CryptoHash, s1: u64, b2: CryptoHash, s2: u64)
    requires (b1, s1) != (b2, s2)
    requires CreateNonceWithNonce(hash, b1, s1) == CreateNonceWithNonce(hash, b2, s2)
    ensures var k1, k2 := GetBlockShardId(b1, s1), GetBlockShardId(b2, s2);
      k1 != k2 && hash(k1) == hash(k2)
  {
    if GetBlockShardId(b1, s1) == GetBlockShardId(b2, s2) {
      GetBlockShardIdInjective(b1, s1, b2, s2);
      assert false;
    }
  }

  /**
    If the hash does not collide on the two 40-byte inputs at hand, equal
    nonces come from equal (base, salt) pairs.
   */
  lemma CreateNonceInjective(hash: seq<u8> -> CryptoHash, b1: CryptoHash, s1: u64, b2: CryptoHash, s2: u64)
    requires hash(GetBlockShardId(b1, s1)) == hash(GetBlockShardId(b2, s2)) ==> GetBlockShardId(b1, s1) == GetBlockShardId(b2, s2)
    requires CreateNonceWithNonce(hash, b1, s1) == CreateNonceWithNonce(hash, b2, s2)
    ensures b1 == b2 && s1 == s2
  {
    GetBlockShardIdInjective(b1, s1, b2, s2);
  }

  // ----- seats per shard -----

  function Max(a: int, b: int): int {
    if a < b then b else a
  }

  /** With at least two shards the quotient leaves room for the `+ 1`. */
  lemma QuotientHeadroom(numShards: u64, numSeats: u64)
    requires numShards >= 2
    ensures numSeats / numShards + 1 < 0x1_0000_0000_0000_0000
  {
    var q := numSeats / numShards;
    DivMod(numSeats, numShards);
    MulMonotone(q, 2, numShards);
  }

  /** Euclidean division of naturals. */
  lemma DivMod(x: nat, d: nat)
    requires d > 0
    ensures x == d * (x / d) + x % d
    ensures 0 <= x % d < d
  {
  }

  lemma Distribute(a: nat, b: nat, q: nat)
    ensures a * (q + 1) + b * q == (a + b) * q + a
  {
  }

  lemma MulMonotone(a: nat, b: nat, c: nat)
    requires b <= c
    ensures a * b <= a * c
  {
  }

  /**
    The closure mapped over `0..num_shards`, given the quotient and remainder
    it computes: one seat more for the first `remainder` shards, floored at 1.
   */
  function ShareOf(quotient: u64, remainder: u64, i: nat): u64
    requires remainder == 0 || quotient + 1 < 0x1_0000_0000_0000_0000
  {
    if i < remainder then Max(quotient + 1, 1) else Max(quotient, 1)
  }

  /** The shares are at least 1, non-increasing, and differ by at most one. */
  lemma ShareOfBalanced(quotient: u64, remainder: u64)
    requires remainder == 0 || quotient + 1 < 0x1_0000_0000_0000_0000
    ensures forall i :: ShareOf(quotient, remainder, i) >= 1
    ensures forall i, j :: i <= j ==>
      ShareOf(quotient, remainder, j) <= ShareOf(quotient, remainder, i) <= ShareOf(quotient, remainder, j) as int + 1
  {
  }

  /**
    `get_num_seats_per_shard`: one entry per shard. With no shards the
    closure never runs, so no division by zero happens and the result is empty.
   */
  function GetNumSeatsPerShard(numShards: u64, numSeats: u64): (r: seq<u64>)
    ensures |r| == numShards
  {
    if numShards == 0 then []
    else
      var quotient := numSeats / numShards;
      var remainder := numSeats % numShards;
      QuotientHeadroomAny(numShards, numSeats, remainder);
      seq(numShards, i requires 0 <= i < numShards => ShareOf(quotient, remainder, i))
  }

  /** Every shard gets a seat, and shares never increase and differ by at most one. */
  lemma SeatsPerShardBalanced(numShards: u64, numSeats: u64)
    ensures var r := GetNumSeatsPerShard(numShards, numSeats);
      && (forall i :: 0 <= i < |r| ==> r[i] >= 1)
      && (forall i, j :: 0 <= i <= j < |r| ==> r[j] <= r[i] <= r[j] as int + 1)
  {
    if numShards > 0 {
      var quotient := numSeats / numShards;
      var remainder := numSeats % numShards;
      QuotientHeadroomAny(numShards, numSeats, remainder);
      ShareOfBalanced(quotient, remainder);
    }
  }

  function Sum(s: seq<u64>): nat
  {
    if |s| == 0 then 0 else s[0] + Sum(s[1..])
  }

  lemma {:induction false} SumConcat(a: seq<u64>, b: seq<u64>)
    ensures Sum(a + b) == Sum(a) + Sum(b)
    decreases |a|
  {
    if |a| == 0 {
      assert a + b == b;
    } else {
      assert (a + b)[1..] == a[1..] + b;
      SumConcat(a[1..], b);
    }
  }

  lemma {:induction false} SumConstant(s: seq<u64>, c: nat)
    requires forall i :: 0 <= i < |s| ==> s[i] == c
    ensures Sum(s) == |s| * c
    decreases |s|
  {
    if |s| > 0 {
      SumConstant(s[1..], c);
    }
  }

  /**
    The shape of the split: with at least as many seats as shards the first
    `num_seats % num_shards` shards get one seat more than the rest and no
    floor applies; with fewer seats than shards every shard gets one seat.
   */
  lemma SeatsPerShardShape(numShards: u64, numSeats: u64, i: nat)
    requires i < numShards
    ensures numSeats >= numShards && i < numSeats % numShards ==>
      GetNumSeatsPerShard(numShards, numSeats)[i] == numSeats / numShards + 1
    ensures numSeats >= numShards && i >= numSeats % numShards ==>
      GetNumSeatsPerShard(numShards, numSeats)[i] == numSeats / numShards
    ensures numSeats < numShards ==> GetNumSeatsPerShard(numShards, numSeats)[i] == 1
  {
    var q := numSeats / numShards;
    DivMod(numSeats, numShards);
    if numSeats >= numShards {
      assert q >= 1;
    } else {
      assert q == 0 by {
        if q >= 1 {
          MulMonotone(numShards, 1, q);
        }
      }
    }
  }

  /** The seats of all shards add up to `max(num_seats, num_shards)`. */
  lemma SeatsPerShardSum(numShards: u64, numSeats: u64)
    requires numShards > 0
    ensures Sum(GetNumSeatsPerShard(numShards, numSeats)) == Max(numSeats, numShards)
  {
    var r := GetNumSeatsPerShard(numShards, numSeats);
    var q := numSeats / numShards;
    var rem := numSeats % numShards;
    forall i | 0 <= i < numShards {
      SeatsPerShardShape(numShards, numSeats, i);
    }
    if numSeats >= numShards {
      QuotientHeadroomAny(numShards, numSeats, rem);
      assert r == r[..rem] + r[rem..];
      SumConcat(r[..rem], r[rem..]);
      SumConstant(r[..rem], q + 1);
      SumConstant(r[rem..], q);
      DivMod(numSeats, numShards);
      Distribute(rem, numShards - rem, q);
    } else {
      SumConstant(r, 1);
    }
  }

  lemma QuotientHeadroomAny(numShards: u64, numSeats: u64, rem: nat)
    requires numShards > 0 && rem == numSeats % numShards
    ensures rem == 0 || numSeats / numShards + 1 < 0x1_0000_0000_0000_0000
  {
    if rem > 0 {
      QuotientHeadroom(numShards, numSeats);
    }
  }
}
