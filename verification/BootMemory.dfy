/** Clearing physical memory from the boot monitor, which can only copy it. */
module BootMemory {
  import opened Storage

  const ZEROS: nat := 128

  /** `s` with `n` of its bytes from `addr` on cleared. */
  function Cleared(s: seq<byte>, addr: nat, n: nat): (r: seq<byte>)
    requires addr + n <= |s|
    ensures |r| == |s| && forall i :: 0 <= i < |s| ==> r[i] == if addr <= i < addr + n then 0 else s[i]
  {
    s[..addr] + seq(n, i => 0) + s[addr + n..]
  }

  /** raw_copy, between places that do not overlap. */
  method RawCopy(mem: array<byte>, dst: nat, src: nat, n: nat)
    requires src + n <= dst && dst + n <= mem.Length
    modifies mem
    ensures mem[..] == old(mem[..dst] + mem[src..src + n] + mem[dst + n..])
  {
    var i: nat := 0;
    while i < n
      invariant i <= n
      invariant forall k :: dst <= k < dst + i ==> mem[k] == old(mem[src + (k - dst)])
      invariant forall k :: 0 <= k < mem.Length && !(dst <= k < dst + i) ==> mem[k] == old(mem[k])
    {
      mem[dst + i] := mem[src + i];
      i := i + 1;
    }
  }

  /** raw_copy from the static array of zeros. */
  method CopyZeros(mem: array<byte>, addr: nat, n: nat)
    requires addr + n <= mem.Length && n <= ZEROS
    modifies mem
    ensures mem[..] == Cleared(old(mem[..]), addr, n)
  {
    var i: nat := 0;
    while i < n
      invariant i <= n
      invariant forall k :: addr <= k < addr + i ==> mem[k] == 0
      invariant forall k :: 0 <= k < mem.Length && !(addr <= k < addr + i) ==> mem[k] == old(mem[k])
    {
      mem[addr + i] := 0;
      i := i + 1;
    }
  }

  /** raw_clear: a few zeros are copied in, then what is clear is copied behind itself, doubling. */
  method RawClear(mem: array<byte>, addr: nat, count: nat)
    requires addr + count <= mem.Length
    modifies mem
    ensures mem[..] == Cleared(old(mem[..]), addr, count)
  {
    hide Cleared;
    ghost var was := mem[..];
    var zct := if ZEROS > count then count else ZEROS;
    var left: nat := count - zct;
    CopyZeros(mem, addr, zct);
    while left > 0
      invariant left <= count && (left > 0 ==> zct > 0 && zct == count - left)
      invariant mem[..] == Cleared(was, addr, count - left)
    {
      var dst := addr + zct;
      if zct > left { zct := left; }
      ghost var c := mem[..];
      RawCopy(mem, dst, addr, zct);
      assert mem[..] == c[..dst] + c[addr..addr + zct] + c[dst + zct..];
      CopyClears(was, addr, count - left, zct);
      left := left - zct;
      zct := 2 * zct;
    }
  }

  /** Copying cleared bytes right behind the cleared ones clears that many more. */
  lemma CopyClears(s: seq<byte>, addr: nat, n: nat, z: nat)
    requires z <= n && addr + n + z <= |s|
    ensures
      var c := Cleared(s, addr, n);
      c[..addr + n] + c[addr..addr + z] + c[addr + n + z..] == Cleared(s, addr, n + z)
  {}
}
