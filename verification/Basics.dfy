/** Types shared by every component: bytes, content hashes and results. */
module Basics {

  newtype byte = x: int | 0 <= x < 256

  type Bytes = seq<byte>

  /** The number of values of a 64-bit word. */
  const WORD := 0x1_0000_0000_0000_0000

  const HASH_SIZE := 32

  /** A SHA-256 digest. The digest function itself is a parameter of the model. */
  type Hash = h: Bytes | |h| == HASH_SIZE witness seq(HASH_SIZE, _ => 0)

  type HashFn = Bytes -> Hash

  /** The zero value of the Go type, which a missing map entry yields. */
  const ZERO_HASH: Hash :=
    [0, 0, 0, 0, 0, 0, 0, 0, 0, 0, 0, 0, 0, 0, 0, 0, 0, 0, 0, 0, 0, 0, 0, 0, 0, 0, 0, 0, 0, 0, 0, 0]

  datatype Option<+T> = None | Some(value: T)

  datatype Result<+T, +E> = Success(value: T) | Failure(error: E)

  function Lookup<K, V>(m: map<K, V>, k: K): Option<V> {
    if k in m then Some(m[k]) else None
  }

  function Min(a: int, b: int): int {
    if a <= b then a else b
  }

  lemma SubsetSize<T>(a: set<T>, b: set<T>)
    requires a <= b
    ensures |a| <= |b|
  {
    assert b == a + (b - a);
  }
}
