/** The vocabulary shared by all modules: devices, blocks and the contents of a device. */
module Storage {

  newtype byte = x: int | 0 <= x < 256

  /** The bytes of one block (b_data of a buffer, or the same block on a device). */
  type Block = seq<byte>

  /** NO_DEV: a buffer with this device number caches nothing. */
  const NO_DEV: nat := 0

  /** The RAM disk, which the second level cache may use as backing store. */
  const DEV_RAM: nat := 0x100

  /** Absence of a link (NIL_BUF, a null pointer). */
  const NIL: int := -1

  datatype Key = Key(dev: nat, blk: nat)

  /** What the device holds at `k`; a block never written reads as the empty block. */
  function OnDisk(disk: map<Key, Block>, k: Key): Block {
    if k in disk then disk[k] else []
  }

  ghost predicate NoDup<T>(s: seq<T>) {
    forall i, j :: 0 <= i < j < |s| ==> s[i] != s[j]
  }

  /** 0, 1, ..., n - 1. */
  function Indices(n: nat): (s: seq<int>)
    ensures |s| == n && forall i :: 0 <= i < n ==> s[i] == i
  {
    if n == 0 then [] else Indices(n - 1) + [n - 1]
  }
}
