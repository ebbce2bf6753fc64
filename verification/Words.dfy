/** Addresses, page-table entries and the bytes of a word. */
module Words {

  datatype Option<+T> = None | Some(value: T)

  const PGSIZE: nat := 4096
  // Virtual page numbers: MAXVA / PGSIZE, and the fixed pages at the top.
  const MAXVPN: nat := 0x400_0000
  const MAXVA: nat := MAXVPN * PGSIZE
  const TRAMPOLINE: nat := MAXVPN - 1
  const TRAPFRAME: nat := MAXVPN - 2

  const NPROC: nat := 4

  /** The page of the kernel stack of a process slot. */
  function KStack(slot: nat): nat
    requires slot < NPROC
  {
    TRAMPOLINE - (slot + 1) * 2
  }

  // ---------------------------------------------------------------- entries

  const PTE_V: nat := 1
  const PTE_R: nat := 2
  const PTE_W: nat := 4
  const PTE_X: nat := 8
  const PTE_U: nat := 16

  predicate V(pte: nat) { pte % 2 == 1 }
  predicate R(pte: nat) { pte / 2 % 2 == 1 }
  predicate W(pte: nat) { pte / 4 % 2 == 1 }
  predicate X(pte: nat) { pte / 8 % 2 == 1 }
  predicate U(pte: nat) { pte / 16 % 2 == 1 }

  function Ppn(pte: nat): nat { pte / 1024 }

  function Flags(pte: nat): (f: nat)
    ensures f < 1024
  {
    pte % 1024
  }

  /** PA2PTE of a frame with permission bits, or-ed with the valid bit. */
  function Pte(frame: nat, perm: nat): nat
  {
    frame * 1024 + if perm % 2 == 1 then perm else perm + 1
  }

  lemma Split1024(f: nat, p: nat)
    requires p < 1024
    ensures (f * 1024 + p) / 1024 == f && (f * 1024 + p) % 1024 == p
  {
  }

  lemma Parity1024(f: nat, p: nat)
    ensures (f * 1024 + p) % 2 == p % 2
  {
    assert f * 1024 + p == 2 * (f * 512) + p;
  }

  lemma PteParts(frame: nat, perm: nat)
    requires perm < 1024
    ensures V(Pte(frame, perm)) && Ppn(Pte(frame, perm)) == frame
    ensures Flags(Pte(frame, perm)) == if perm % 2 == 1 then perm else perm + 1
  {
    var p := if perm % 2 == 1 then perm else perm + 1;
    Split1024(frame, p);
    Parity1024(frame, p);
  }

  lemma OddFlags(pte: nat)
    requires V(pte)
    ensures Flags(pte) % 2 == 1
  {
  }

  /** The flags of a valid entry, given to another frame. */
  lemma PteSameFlags(frame: nat, pte: nat)
    requires V(pte)
    ensures V(Pte(frame, Flags(pte))) && Ppn(Pte(frame, Flags(pte))) == frame
    ensures Flags(Pte(frame, Flags(pte))) == Flags(pte)
  {
    OddFlags(pte);
    PteParts(frame, Flags(pte));
    hide Pte, Ppn, Flags, V;
  }

  /** A bare pointer to a table has no permission bit. */
  lemma PointerBits(g: nat)
    ensures V(g * 1024 + PTE_V) && Ppn(g * 1024 + PTE_V) == g
    ensures !R(g * 1024 + PTE_V) && !W(g * 1024 + PTE_V) && !X(g * 1024 + PTE_V)
  {
    assert (g * 1024 + 1) / 2 == g * 512;
    assert (g * 1024 + 1) / 4 == g * 256;
    assert (g * 1024 + 1) / 8 == g * 128;
  }

  /** PX: the nine-bit index of a page number at a level of the tree. */
  function PX(level: nat, vpn: nat): (i: nat)
    ensures i < 512
  {
    if level == 0 then vpn % 512
    else if level == 1 then vpn / 512 % 512
    else vpn / 512 / 512 % 512
  }

  /** What is left of a page number above a level. */
  function Pre(level: nat, vpn: nat): nat {
    if level == 0 then vpn / 512
    else if level == 1 then vpn / 512 / 512
    else vpn / 512 / 512 / 512
  }

  lemma PreStep(level: nat, vpn: nat)
    requires 0 < level <= 2
    ensures Pre(level - 1, vpn) == Pre(level, vpn) * 512 + PX(level, vpn)
  {
  }

  // ------------------------------------------------------------------ bytes

  type Byte = b: nat | b < 256

  type Page = s: seq<nat> | |s| == 512 witness seq(512, _ => 0)

  function ZeroPage(): (p: Page)
    ensures forall i :: 0 <= i < 512 ==> p[i] == 0
  {
    seq(512, i => 0)
  }

  function Pow256(k: nat): (p: nat)
    ensures p > 0
  {
    if k == 0 then 1 else 256 * Pow256(k - 1)
  }

  /** Little-endian value of some bytes. */
  function FromLE(s: seq<Byte>): nat {
    if s == [] then 0 else s[0] + 256 * FromLE(s[1..])
  }

  /** The n low bytes of a number, low byte first. */
  function ToLE(w: nat, n: nat): (s: seq<Byte>)
    ensures |s| == n
  {
    if n == 0 then [] else [w % 256] + ToLE(w / 256, n - 1)
  }

  lemma {:induction false} LERoundTrip(w: nat, n: nat)
    requires w < Pow256(n)
    ensures FromLE(ToLE(w, n)) == w
  {
    if n > 0 {
      LERoundTrip(w / 256, n - 1);
      assert ToLE(w, n)[1..] == ToLE(w / 256, n - 1);
    }
  }

  lemma Split256(b: Byte, x: nat)
    ensures (b + 256 * x) % 256 == b && (b + 256 * x) / 256 == x
  {
  }

  lemma {:induction false} LEBytes(s: seq<Byte>)
    ensures ToLE(FromLE(s), |s|) == s
  {
    if s != [] {
      LEBytes(s[1..]);
      Split256(s[0], FromLE(s[1..]));
    }
  }

  /** The 4096 bytes of a page. */
  function Bytes(p: Page): (b: seq<Byte>)
    ensures |b| == PGSIZE
  {
    seq(PGSIZE, k requires 0 <= k < PGSIZE => ToLE(p[k / 8], 8)[k % 8])
  }

  /** The page that holds given bytes. */
  function FromBytes(b: seq<Byte>): Page
    requires |b| == PGSIZE
  {
    seq(512, i requires 0 <= i < 512 => FromLE(b[8 * i..8 * i + 8]))
  }

  lemma BytesOfPage(b: seq<Byte>)
    requires |b| == PGSIZE
    ensures Bytes(FromBytes(b)) == b
  {
    forall k | 0 <= k < PGSIZE
      ensures Bytes(FromBytes(b))[k] == b[k]
    {
      var s := b[8 * (k / 8)..8 * (k / 8) + 8];
      LEBytes(s);
      assert s[k % 8] == b[k];
    }
  }

  /** memmove into a page: the bytes from an offset on are replaced. */
  function Splice(b: seq<Byte>, off: nat, s: seq<Byte>): (r: seq<Byte>)
    requires off + |s| <= |b|
    ensures |r| == |b|
  {
    b[..off] + s + b[off + |s|..]
  }

  // ------------------------------------------------------- 32-bit counters

  const UINT: nat := 0x1_0000_0000

  function Minus(a: int, b: int): nat { (a - b) % UINT }

  function Plus(a: nat, b: nat): nat { (a + b) % UINT }

  /** Two counters that wrap still differ by what was counted between them. */
  lemma Counted(p: nat, d: nat, size: nat)
    requires d <= p <= d + size && size < UINT
    ensures Minus(p % UINT, d % UINT) == p - d
    ensures Minus(size, p - d) == size - (p - d)
  {
    assert (p % UINT - d % UINT - (p - d)) % UINT == 0;
  }

  /** The sum of a counter and a length, past an overflow. */
  lemma Counts(d: nat, n: nat)
    ensures Plus(d % UINT, n) == (d + n) % UINT
  {
  }

  /** The rings of the console and of a pipe; both sizes divide 2^32. */
  predicate RingSize(size: nat) { size == 128 || size == 512 }

  /** A counter that wraps still points at the same cell of a ring. */
  lemma Cell(p: nat, size: nat)
    requires RingSize(size)
    ensures p % UINT % size == p % size
  {
    if size == 128 { Cell128(p); } else { Cell512(p); }
  }

  lemma Cell128(p: nat)
    ensures p % UINT % 128 == p % 128
  {
    assert UINT == 128 * 0x200_0000;
  }

  lemma Cell512(p: nat)
    ensures p % UINT % 512 == p % 512
  {
    assert UINT == 512 * 0x80_0000;
  }

  /** Fewer than size apart, two counts have different cells. */
  lemma Apart(i: nat, j: nat, size: nat)
    requires RingSize(size) && i < j < i + size
    ensures i % size != j % size
  {
  }
}
