/** A regular node's secret and its two hashes, with the encodings hashed on the way. */
module Commitments {
  import opened Words

  /** common.LeftPadBytes. */
  function LeftPad(bs: Bytes, width: nat): (padded: Bytes)
    ensures |padded| == if |bs| < width then width else |bs|
    ensures bs == padded[|padded| - |bs|..]
  {
    if |bs| >= width then bs else seq(width - |bs|, i => 0) + bs
  }

  /** big.Int.Bytes of an absolute value: big-endian without leading zeros. */
  function Magnitude(n: nat): Bytes {
    if n == 0 then [] else Magnitude(n / 256) + [n % 256]
  }

  /** intToBytes; the sign is lost. */
  function IntToBytes(n: int): Bytes {
    LeftPad(Magnitude(if n < 0 then -n else n), 32)
  }

  function AbiEncode(elements: seq<Bytes>): Bytes {
    if elements == [] then [] else AbiEncode(elements[..|elements| - 1]) + LeftPad(elements[|elements| - 1], 32)
  }

  method AbiEncodeLoop(elements: seq<Bytes>) returns (encoded: Bytes)
    ensures encoded == AbiEncode(elements)
  {
    encoded := [];
    for i := 0 to |elements|
      invariant encoded == AbiEncode(elements[..i])
    {
      assert elements[..i + 1][..i] == elements[..i];
      encoded := encoded + LeftPad(elements[i], 32);
    }
    assert elements[..|elements|] == elements;
  }

  method AbiEncodePacked(elements: seq<Bytes>) returns (packed: Bytes)
    ensures packed == Concat(elements)
  {
    packed := [];
    for i := 0 to |elements|
      invariant packed == Concat(elements[..i])
    {
      ConcatAppend(elements[..i], elements[i]);
      assert elements[..i + 1] == elements[..i] + [elements[i]];
      packed := packed + elements[i];
    }
    assert elements[..|elements|] == elements;
  }

  // ---------------------------------------------------------------------
  // Encodings lose nothing

  lemma {:induction false} UintSplit(a: Bytes, b: Bytes)
    ensures Uint(a + b) == Uint(a) * Power(|b|) + Uint(b)
  {
    if b == [] {
      assert a + b == a;
    } else {
      var n := |b| - 1;
      assert (a + b)[..|a + b| - 1] == a + b[..n];
      UintSplit(a, b[..n]);
      assert Uint(a + b) == 256 * (Uint(a) * Power(n) + Uint(b[..n])) + b[n];
      Regroup(Uint(a), Power(n), Uint(b[..n]), b[n]);
    }
  }

  lemma Regroup(x: nat, p: nat, y: nat, z: nat)
    ensures 256 * (x * p + y) + z == x * (256 * p) + (256 * y + z)
  {}

  function Power(n: nat): nat {
    if n == 0 then 1 else 256 * Power(n - 1)
  }

  lemma {:induction false} UintOfZeros(n: nat)
    ensures Uint(seq(n, i => 0)) == 0
  {
    if n > 0 {
      UintOfZeros(n - 1);
      assert seq(n, i => 0)[..n - 1] == seq(n - 1, i => 0);
    }
  }

  lemma {:induction false} MagnitudeValue(n: nat)
    ensures Uint(Magnitude(n)) == n
  {
    if n > 0 {
      MagnitudeValue(n / 256);
      assert Magnitude(n)[..|Magnitude(n)| - 1] == Magnitude(n / 256);
    }
  }

  lemma {:induction false} MagnitudeFits(n: nat, width: nat)
    requires n < Power(width)
    ensures |Magnitude(n)| <= width
  {
    if n > 0 {
      MagnitudeFits(n / 256, width - 1);
    }
  }

  lemma PowerOf32()
    ensures Power(32) == TWO_256
  {
    assert Power(8) == 0x1_0000_0000_0000_0000;
    assert Power(16) == Power(8) * Power(8);
    assert Power(24) == Power(16) * Power(8);
  }

  /** Reading the 32 bytes back gives the number, below 2^256. */
  lemma IntToBytesValue(n: nat)
    requires n < TWO_256
    ensures |IntToBytes(n)| == 32 && Uint(IntToBytes(n)) == n
  {
    PowerOf32();
    MagnitudeFits(n, 32);
    MagnitudeValue(n);
    var pad: Bytes := seq(32 - |Magnitude(n)|, i => 0);
    UintOfZeros(32 - |Magnitude(n)|);
    UintSplit(pad, Magnitude(n));
    assert IntToBytes(n) == pad + Magnitude(n);
  }

  /** A 32-byte value is its own abi.encode, so the Go and Solidity hashes of it agree. */
  lemma AbiEncodeWord(w: Word)
    ensures AbiEncode([w]) == w == Concat([w])
  {
    assert AbiEncode([w][..0]) == [];
    assert [w][1..] == [];
  }

  // ---------------------------------------------------------------------
  // GenerateCommit

  datatype Commit = Commit(secret: Word, cos: Word, cvs: Word)

  /** What is hashed into the secret. */
  function SecretInput(round: int, operator: Bytes, time: int): Bytes {
    Concat([IntToBytes(round), operator, IntToBytes(time)])
  }

  function CommitOf(keccak: Hash, round: int, operator: Bytes, time: int): Commit {
    var secret := keccak(SecretInput(round, operator, time));
    Commit(secret, keccak(secret), keccak(keccak(secret)))
  }

  /** What the secret hashes: 32 bytes of the round, the operator, and 32 bytes of the time. */
  lemma SecretHashesParts(keccak: Hash, round: nat, operator: Bytes, time: nat)
    requires round < TWO_256 && time < TWO_256 && |operator| == 20
    ensures exists input: Bytes ::
              && |input| == 84 && Uint(input[..32]) == round && input[32..52] == operator
              && Uint(input[52..]) == time && CommitOf(keccak, round, operator, time).secret == keccak(input)
  {
    IntToBytesValue(round);
    IntToBytesValue(time);
    ThreeParts(IntToBytes(round), operator, IntToBytes(time));
    var input := SecretInput(round, operator, time);
    hide IntToBytes, Uint;
    assert |input| == 84 && Uint(input[..32]) == round && input[32..52] == operator && Uint(input[52..]) == time;
  }

  /** So with a hash that does not collide on the two strings, equal secrets mean the same round, operator and time. */
  lemma EqualSecrets(
      keccak: Hash, round: nat, operator: Bytes, time: nat, round': nat, operator': Bytes, time': nat,
      input: Bytes, input': Bytes)
    requires round < TWO_256 && round' < TWO_256 && time < TWO_256 && time' < TWO_256
    requires |operator| == |operator'| == 20
    requires input == SecretInput(round, operator, time) && input' == SecretInput(round', operator', time')
    requires CollisionFree(keccak, {input, input'})
    ensures CommitOf(keccak, round, operator, time).secret == CommitOf(keccak, round', operator', time').secret
       <==> round == round' && operator == operator' && time == time'
  {
    if input == input' {
      SecretInputInjective(round, operator, time, round', operator', time');
    }
  }

  /** `parse` is big.Int.SetString in base 10. */
  method GenerateCommit(keccak: Hash, parse: string -> Option<int>, round: string, operator: Bytes, time: int)
    returns (commit: Option<Commit>)
    ensures commit == if parse(round).None? then None else Some(CommitOf(keccak, parse(round).value, operator, time))
    ensures commit.Some? ==>
              commit.value.cos == keccak(commit.value.secret) && commit.value.cvs == keccak(commit.value.cos)
    ensures commit.Some? && 0 <= parse(round).value < TWO_256 && 0 <= time < TWO_256 && |operator| == 20 ==>
              exists input: Bytes ::
                && |input| == 84 && Uint(input[..32]) == parse(round).value && input[32..52] == operator
                && Uint(input[52..]) == time && commit.value.secret == keccak(input)
  {
    var number := parse(round);
    if number.None? {
      return None;
    }
    var packed := AbiEncodePacked([IntToBytes(number.value), operator, IntToBytes(time)]);
    var secret := keccak(packed);
    var encoded := AbiEncodeLoop([secret]);
    AbiEncodeWord(secret);
    var cos := keccak(encoded);
    encoded := AbiEncodeLoop([cos]);
    AbiEncodeWord(cos);
    var cvs := keccak(encoded);
    if 0 <= number.value < TWO_256 && 0 <= time < TWO_256 && |operator| == 20 {
      SecretHashesParts(keccak, number.value, operator, time);
    }
    return Some(Commit(secret, cos, cvs));
  }

  /** Packing is unambiguous: different rounds, operators or times hash different strings. */
  lemma SecretInputInjective(round: nat, operator: Bytes, time: nat, round': nat, operator': Bytes, time': nat)
    requires round < TWO_256 && round' < TWO_256 && time < TWO_256 && time' < TWO_256
    requires |operator| == |operator'| == 20
    requires SecretInput(round, operator, time) == SecretInput(round', operator', time')
    ensures round == round' && operator == operator' && time == time'
  {
    IntToBytesValue(round);
    IntToBytesValue(round');
    IntToBytesValue(time);
    IntToBytesValue(time');
    hide IntToBytes, Power, Uint;
    ThreeParts(IntToBytes(round), operator, IntToBytes(time));
    ThreeParts(IntToBytes(round'), operator', IntToBytes(time'));
  }

  lemma ThreeParts(a: Bytes, b: Bytes, c: Bytes)
    requires |a| == 32 && |b| == 20 && |c| == 32
    ensures var s := Concat([a, b, c]); |s| == 84 && s[..32] == a && s[32..52] == b && s[52..] == c
  {
    assert [a, b, c][1..] == [b, c] && [b, c][1..] == [c] && [c][1..] == [];
    assert Concat([c]) == c && Concat([b, c]) == b + c;
    assert Concat([a, b, c]) == a + (b + c);
  }
}
