/** The leading-zero-bit test and the nonce search (src/transaction.rs). */
module ProofOfWork {
  import opened Types

  /** The bytes read as one number, most significant first. */
  function BigEndian(bytes: seq<byte>): nat {
    if bytes == [] then 0 else BigEndian(bytes[..|bytes| - 1]) * 256 + bytes[|bytes| - 1] as nat
  }

  function Pow2(n: nat): (r: nat)
    ensures r >= 1
  {
    if n == 0 then 1 else 2 * Pow2(n - 1)
  }

  /** The numeric threshold the bit test stands for. */
  predicate MeetsDifficulty(hash: seq<byte>, difficulty: nat)
    requires difficulty <= 255
  {
    BigEndian(hash) < Pow2(256 - difficulty)
  }

  lemma {:induction false} Pow2Adds(m: nat, n: nat)
    ensures Pow2(m + n) == Pow2(m) * Pow2(n)
  {
    if m > 0 {
      Pow2Adds(m - 1, n);
      assert 2 * (Pow2(m - 1) * Pow2(n)) == (2 * Pow2(m - 1)) * Pow2(n);
    }
  }

  lemma {:induction false} Pow2Grows(m: nat, n: nat)
    requires m <= n
    ensures Pow2(m) <= Pow2(n)
  {
    if m < n {
      Pow2Grows(m, n - 1);
    }
  }

  lemma {:induction false} BigEndianBound(bytes: seq<byte>)
    ensures BigEndian(bytes) < Pow2(8 * |bytes|)
  {
    if bytes != [] {
      BigEndianBound(bytes[..|bytes| - 1]);
      Pow2Adds(8, 8 * (|bytes| - 1));
      assert Pow2(8) == 256;
    }
  }

  lemma {:induction false} BigEndianSplit(a: seq<byte>, b: seq<byte>)
    ensures BigEndian(a + b) == BigEndian(a) * Pow2(8 * |b|) + BigEndian(b)
  {
    if b == [] {
      assert a + b == a;
    } else {
      var init, last := b[..|b| - 1], b[|b| - 1] as nat;
      assert (a + b)[..|a + b| - 1] == a + init;
      BigEndianSplit(a, init);
      Pow2Adds(8, 8 * |init|);
      assert 8 + 8 * |init| == 8 * |b| && Pow2(8) == 256;
      Horner(BigEndian(a), Pow2(8 * |init|), BigEndian(init), last);
    }
  }

  lemma Horner(x: nat, p: nat, y: nat, last: nat)
    ensures (x * p + y) * 256 + last == x * (256 * p) + (y * 256 + last)
  {
    assert (x * p) * 256 == x * (256 * p);
  }

  lemma {:induction false} ZeroPrefix(bytes: seq<byte>)
    ensures BigEndian(bytes) == 0 <==> forall i :: 0 <= i < |bytes| ==> bytes[i] == 0
  {
    if bytes != [] {
      ZeroPrefix(bytes[..|bytes| - 1]);
    }
  }

  /** A byte has no bit under the mask 0xFF << s exactly when it is below 2^s. */
  lemma MaskIsThreshold(b: byte, s: nat)
    requires 1 <= s <= 7
    ensures b & ((0xFF as bv8) << s) == 0 <==> b as nat < Pow2(s)
  {
    if s == 1 { assert (0xFF as bv8) << 1 == 0xFE && (b & 0xFE == 0 <==> b < 2); }
    else if s == 2 { assert (0xFF as bv8) << 2 == 0xFC && (b & 0xFC == 0 <==> b < 4); }
    else if s == 3 { assert (0xFF as bv8) << 3 == 0xF8 && (b & 0xF8 == 0 <==> b < 8); }
    else if s == 4 { assert (0xFF as bv8) << 4 == 0xF0 && (b & 0xF0 == 0 <==> b < 16); }
    else if s == 5 { assert (0xFF as bv8) << 5 == 0xE0 && (b & 0xE0 == 0 <==> b < 32); }
    else if s == 6 { assert (0xFF as bv8) << 6 == 0xC0 && (b & 0xC0 == 0 <==> b < 64); }
    else { assert (0xFF as bv8) << 7 == 0x80 && (b & 0x80 == 0 <==> b < 128); }
  }

  /** Zero whole bytes and zero leading bits of the next one make up the threshold. */
  lemma ThresholdByBytes(hash: seq<byte>, difficulty: nat)
    requires |hash| == 32 && difficulty <= 255
    ensures var z, r := difficulty / 8, difficulty % 8;
            MeetsDifficulty(hash, difficulty) <==>
              (forall i :: 0 <= i < z ==> hash[i] == 0) && (r > 0 ==> hash[z] as nat < Pow2(8 - r))
  {
    var z, r := difficulty / 8, difficulty % 8;
    var prefix, rest := hash[..z], hash[z..];
    assert hash == prefix + rest;
    BigEndianSplit(prefix, rest);
    BigEndianBound(rest);
    ZeroPrefix(prefix);
    if BigEndian(prefix) != 0 {
      Pow2Grows(256 - difficulty, 8 * |rest|);
      TooBig(BigEndian(prefix), Pow2(8 * |rest|));
      var i :| 0 <= i < |prefix| && prefix[i] != 0;
      assert hash[i] == prefix[i];
    } else {
      assert forall i :: 0 <= i < z ==> hash[i] == prefix[i];
      assert 0 * Pow2(8 * |rest|) == 0;
      if r > 0 {
        ThresholdInByte(rest, 8 - r);
        assert rest[0] == hash[z];
        assert 8 * (|rest| - 1) + (8 - r) == 256 - difficulty;
      }
    }
  }

  lemma TooBig(x: nat, p: nat)
    requires x >= 1
    ensures x * p >= p
  {
  }

  /** Below 2^(8k + s) exactly when the leading byte is below 2^s. */
  lemma ThresholdInByte(bytes: seq<byte>, s: nat)
    requires bytes != []
    ensures BigEndian(bytes) < Pow2(8 * (|bytes| - 1) + s) <==> bytes[0] as nat < Pow2(s)
  {
    var tail := bytes[1..];
    assert bytes == [bytes[0]] + tail;
    BigEndianSplit([bytes[0]], tail);
    BigEndianBound(tail);
    Pow2Adds(s, 8 * |tail|);
    assert BigEndian([bytes[0]]) == bytes[0] as nat by {
      assert [bytes[0]][..0] == [];
    }
    DigitOrder(bytes[0] as nat, BigEndian(tail), Pow2(s), Pow2(8 * |tail|));
  }

  lemma DigitOrder(digit: nat, low: nat, limit: nat, base: nat)
    requires low < base
    ensures digit * base + low < limit * base <==> digit < limit
  {
    if digit < limit {
      assert (digit + 1) * base <= limit * base;
    } else {
      assert digit * base >= limit * base;
    }
  }

  /** A harder target implies every easier one. */
  lemma HarderImpliesEasier(hash: seq<byte>, hard: nat, easy: nat)
    requires easy <= hard <= 255 && MeetsDifficulty(hash, hard)
    ensures MeetsDifficulty(hash, easy)
  {
    Pow2Grows(256 - hard, 256 - easy);
  }

  method VerifyPow(hash: seq<byte>, difficulty: nat) returns (ok: bool)
    requires |hash| == 32 && difficulty <= 255
    ensures ok <==> MeetsDifficulty(hash, difficulty)
  {
    var zeroBytes, remainingBits := difficulty / 8, difficulty % 8;
    ThresholdByBytes(hash, difficulty);
    for i := 0 to zeroBytes
      invariant forall j :: 0 <= j < i ==> hash[j] == 0
    {
      if hash[i] != 0 {
        return false;
      }
    }
    if remainingBits > 0 && zeroBytes < |hash| {
      var mask: bv8 := 0xFF << (8 - remainingBits);
      MaskIsThreshold(hash[zeroBytes], 8 - remainingBits);
      if hash[zeroBytes] & mask != 0 {
        return false;
      }
    }
    return true;
  }

  /** The least passing nonce. The source loops for ever when no nonce passes. */
  method MineNonce(powHash: u64 -> seq<byte>, difficulty: nat, ghost someNonce: u64) returns (nonce: u64)
    requires difficulty <= 255 && forall n: u64 :: |powHash(n)| == 32
    requires MeetsDifficulty(powHash(someNonce), difficulty)
    ensures MeetsDifficulty(powHash(nonce), difficulty)
    ensures forall n: u64 :: n < nonce ==> !MeetsDifficulty(powHash(n), difficulty)
  {
    nonce := 0;
    while true
      invariant nonce <= someNonce
      invariant forall n: u64 :: n < nonce ==> !MeetsDifficulty(powHash(n), difficulty)
      decreases someNonce - nonce
    {
      var valid := VerifyPow(powHash(nonce), difficulty);
      if valid {
        return;
      }
      nonce := nonce + 1;
    }
  }
}
