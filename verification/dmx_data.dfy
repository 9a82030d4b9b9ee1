/**
 * The DMX buffer behind `DMX_Data.get`/`DMX_Data.set`, whose own code is not
 * part of this model: a map from (universe, slot) to the slot's value. A slot
 * that was never written reads as 0.
 */
module DmxData {

  type Buffer = map<(int, int), int>

  function Get(buf: Buffer, universe: int, slot: int): int {
    if (universe, slot) in buf then buf[(universe, slot)] else 0
  }

  /** The two buffers agree on key `k`: both lack it or both hold the same value. */
  ghost predicate Unchanged(a: Buffer, b: Buffer, k: (int, int)) {
    (k in a <==> k in b) && (k in a ==> a[k] == b[k])
  }

  /** `k` is one of the `n` slots `address`, `address + 1`, ... of `universe`. */
  predicate InBlock(k: (int, int), universe: int, address: int, n: int) {
    k.0 == universe && address <= k.1 < address + n
  }

  /** `DMX_Data.set(universe, slot, value)`. */
  function Set(buf: Buffer, universe: int, slot: int, value: int): (r: Buffer)
    ensures Get(r, universe, slot) == value
    ensures forall k :: k != (universe, slot) ==> Unchanged(buf, r, k)
    ensures forall u, s :: (u, s) != (universe, slot) ==> Get(r, u, s) == Get(buf, u, s)
  {
    buf[(universe, slot) := value]
  }

  /** `DMX_Data.get(universe, address, n)`: the `n` values at slots
      `address`, `address + 1`, ... of `universe`. */
  function GetRange(buf: Buffer, universe: int, address: int, n: nat): (r: seq<int>)
    ensures |r| == n
    ensures forall i :: 0 <= i < n ==> r[i] == Get(buf, universe, address + i)
  {
    seq(n, i requires 0 <= i < n => Get(buf, universe, address + i))
  }
}
