/** Bytes, 32-byte words and the hash that every other module is parameterised by. */
module Words {

  datatype Option<+T> = None | Some(value: T)

  type Byte = b: int | 0 <= b < 256
  type Bytes = seq<Byte>

  /** A bytes32 value. */
  type Word = w: Bytes | |w| == 32 witness seq(32, i => 0)

  /** Keccak-256, known only by its type: every result holds for every function of this type. */
  type Hash = Bytes -> Word

  const ZERO: Word := [
    0, 0, 0, 0, 0, 0, 0, 0, 0, 0, 0, 0, 0, 0, 0, 0,
    0, 0, 0, 0, 0, 0, 0, 0, 0, 0, 0, 0, 0, 0, 0, 0]

  const TWO_256: nat := 0x1_0000_0000_0000_0000_0000_0000_0000_0000_0000_0000_0000_0000_0000_0000_0000_0000

  /** Concatenation in order, as abi.encodePacked does with its arguments. */
  function Concat(parts: seq<Bytes>): Bytes {
    if parts == [] then [] else parts[0] + Concat(parts[1..])
  }

  /** Big-endian value of a byte string. */
  function Uint(bs: Bytes): nat {
    if bs == [] then 0 else 256 * Uint(bs[..|bs| - 1]) + bs[|bs| - 1]
  }

  /** Distance of two words read as numbers. */
  function Distance(v: Word, w: Word): (d: nat)
    ensures Uint(v) + d == Uint(w) || Uint(w) + d == Uint(v)
  {
    if Uint(v) > Uint(w) then Uint(v) - Uint(w) else Uint(w) - Uint(v)
  }

  function Distances(rv: Word, words: seq<Word>): (ds: seq<nat>)
    ensures |ds| == |words|
    ensures forall i :: 0 <= i < |ds| ==> ds[i] == Distance(rv, words[i])
  {
    seq(|words|, i requires 0 <= i < |words| => Distance(rv, words[i]))
  }

  /** No two different strings of the set share a hash. */
  ghost predicate CollisionFree(keccak: Hash, inputs: set<Bytes>) {
    forall x, y :: x in inputs && y in inputs && keccak(x) == keccak(y) ==> x == y
  }

  lemma {:induction false} ConcatAppend(parts: seq<Bytes>, last: Bytes)
    ensures Concat(parts + [last]) == Concat(parts) + last
  {
    if parts == [] {
      assert [last][1..] == [];
    } else {
      assert (parts + [last])[1..] == parts[1..] + [last];
      ConcatAppend(parts[1..], last);
    }
  }
}
