/** The argument stack that exec lays out in the one page of a new program. */
module ExecLayout {
  import opened Words
  import opened PageTables
  import opened Translation
  import opened Changes
  import opened UserBytes
  import opened Space

  const TWO64: nat := 0x1_0000_0000_0000_0000
  const MAXARG: nat := 32
  const MAXPATH: nat := 128

  /** Subtraction of uint64 values. */
  function SubWrap(a: nat, b: nat): nat
    requires b <= TWO64
  {
    if b <= a then a - b else a + TWO64 - b
  }

  function AlignDown(x: nat, a: nat): nat
    requires a > 0
  {
    x - x % a
  }

  /** The C string in a buffer at an offset, without its NUL. */
  function StrAt(b: seq<Byte>, off: nat): (s: seq<Byte>)
    ensures 0 !in s && (off <= |b| ==> off + |s| <= |b|)
    decreases |b| - off
  {
    if off >= |b| || b[off] == 0 then [] else [b[off]] + StrAt(b, off + 1)
  }

  lemma {:induction false} StrAtIs(b: seq<Byte>, off: nat, s: seq<Byte>)
    requires off + |s| < |b| && b[off..off + |s|] == s && b[off + |s|] == 0 && 0 !in s
    ensures StrAt(b, off) == s
    decreases |s|
  {
    if s != [] {
      assert s[0] == b[off] && s[0] in s;
      assert b[off + 1..off + |s|] == s[1..];
      StrAtIs(b, off + 1, s[1..]);
    }
  }

  /** An array of pointers as bytes. */
  function PtrBytes(ptrs: seq<nat>): (b: seq<Byte>)
    ensures |b| == 8 * |ptrs|
  {
    if ptrs == [] then [] else ToLE(ptrs[0], 8) + PtrBytes(ptrs[1..])
  }

  lemma {:induction false} PtrBytesAt(ptrs: seq<nat>, i: nat)
    requires i < |ptrs|
    ensures PtrBytes(ptrs)[8 * i..8 * i + 8] == ToLE(ptrs[i], 8)
  {
    if i > 0 {
      PtrBytesAt(ptrs[1..], i - 1);
      assert PtrBytes(ptrs)[8 * i..8 * i + 8] == PtrBytes(ptrs[1..])[8 * (i - 1)..8 * (i - 1) + 8];
    }
  }

  /** The stack top after some strings have been pushed. */
  function Top(ptrs: seq<nat>): nat {
    if ptrs == [] then PGSIZE else ptrs[|ptrs| - 1]
  }

  /** Strings below one another, above the code and below the end of the page. */
  predicate Stacked(size: nat, strs: seq<seq<Byte>>, ptrs: seq<nat>) {
    && |ptrs| == |strs|
    && forall i :: 0 <= i < |ptrs| ==>
         size <= ptrs[i] && ptrs[i] % 8 == 0 && ptrs[i] + |strs[i]| + 1 <= Top(ptrs[..i])
  }

  /** The code and the strings, as user mode reads them. */
  ghost predicate Image(s: State, r: nat, prog: seq<Byte>, strs: seq<seq<Byte>>, ptrs: seq<nat>) {
    && Reads(s, r, 0, prog) && Stacked(|prog|, strs, ptrs)
    && forall i :: 0 <= i < |ptrs| ==> Reads(s, r, ptrs[i], strs[i] + [0])
  }

  lemma StackedPrefix(size: nat, strs: seq<seq<Byte>>, ptrs: seq<nat>, n: nat)
    requires Stacked(size, strs, ptrs) && n <= |ptrs|
    ensures Stacked(size, strs[..n], ptrs[..n])
  {
    forall k | 0 <= k < n
      ensures ptrs[..n][..k] == ptrs[..k]
    {
    }
  }

  /** All strings end at or below the page's end and never overlap. */
  lemma {:induction false} StackedBelow(size: nat, strs: seq<seq<Byte>>, ptrs: seq<nat>, i: nat)
    requires Stacked(size, strs, ptrs) && i < |ptrs|
    ensures ptrs[i] + |strs[i]| + 1 <= PGSIZE && Top(ptrs) <= ptrs[i]
    ensures forall j :: 0 <= j < i ==> ptrs[i] + |strs[i]| + 1 <= ptrs[j]
    decreases i
  {
    if i > 0 {
      StackedPrefix(size, strs, ptrs, i);
      forall j | 0 <= j < i
        ensures ptrs[i - 1] <= ptrs[j] && ptrs[j] + |strs[j]| + 1 <= PGSIZE
      {
        StackedBelow(size, strs[..i], ptrs[..i], j);
      }
    }
    TopBelow(size, strs, ptrs, i);
  }

  lemma {:induction false} TopBelow(size: nat, strs: seq<seq<Byte>>, ptrs: seq<nat>, i: nat)
    requires Stacked(size, strs, ptrs) && i < |ptrs|
    ensures Top(ptrs) <= ptrs[i]
    decreases |ptrs|
  {
    var n := |ptrs| - 1;
    if i < n {
      StackedPrefix(size, strs, ptrs, n);
      assert Top(ptrs[..n]) >= ptrs[n];
      TopBelow(size, strs[..n], ptrs[..n], i);
      hide Stacked;
    }
  }

  lemma TopInPage(size: nat, strs: seq<seq<Byte>>, ptrs: seq<nat>)
    requires Stacked(size, strs, ptrs) && size <= PGSIZE
    ensures size <= Top(ptrs) <= PGSIZE
  {
    if ptrs != [] {
      StackedBelow(size, strs, ptrs, |ptrs| - 1);
    }
  }

  // ------------------------------------------------ writing below the stack

  lemma ReadsWrote(s: State, s': State, r: nat, va: nat, b: seq<Byte>)
    requires IsRoot(s, r) && UserOwned(s, r) && Wrote(s, s', r, va, b)
    ensures Reads(s', r, va, b)
  {
    hide UByte, UserOwned;
  }

  lemma ReadsOther(s: State, s': State, r: nat, va: nat, b: seq<Byte>, a: nat, x: seq<Byte>)
    requires IsRoot(s, r) && UserOwned(s, r) && Wrote(s, s', r, va, b) && Reads(s, r, a, x)
    requires a + |x| <= va || va + |b| <= a
    ensures Reads(s', r, a, x)
  {
    hide UByte, UserOwned;
  }

  /** What is written between the code and the stack top disturbs neither. */
  lemma ImageKept(s: State, s': State, r: nat, prog: seq<Byte>, strs: seq<seq<Byte>>, ptrs: seq<nat>, va: nat,
      b: seq<Byte>)
    requires IsRoot(s, r) && UserOwned(s, r) && Wrote(s, s', r, va, b) && Image(s, r, prog, strs, ptrs)
    requires |prog| <= va && va + |b| <= Top(ptrs)
    ensures Image(s', r, prog, strs, ptrs)
  {
    hide UserOwned, Wrote, Reads;
    ReadsOther(s, s', r, va, b, 0, prog);
    forall i | 0 <= i < |ptrs|
      ensures Reads(s', r, ptrs[i], strs[i] + [0])
    {
      TopBelow(|prog|, strs, ptrs, i);
      ReadsOther(s, s', r, va, b, ptrs[i], strs[i] + [0]);
    }
  }

  lemma StackedMore(size: nat, strs: seq<seq<Byte>>, ptrs: seq<nat>, str: seq<Byte>, sp: nat)
    requires Stacked(size, strs, ptrs) && size <= sp && sp % 8 == 0 && sp + |str| + 1 <= Top(ptrs)
    ensures Stacked(size, strs + [str], ptrs + [sp])
  {
    var q := ptrs + [sp];
    forall i | 0 <= i < |q|
      ensures q[..i] == ptrs[..i]
    {
    }
    assert ptrs[..|ptrs|] == ptrs;
  }

  lemma ImageMore(s: State, s': State, r: nat, prog: seq<Byte>, strs: seq<seq<Byte>>, ptrs: seq<nat>, str: seq<Byte>,
      sp: nat)
    requires IsRoot(s, r) && UserOwned(s, r) && Wrote(s, s', r, sp, str + [0]) && Image(s, r, prog, strs, ptrs)
    requires |prog| <= sp && sp % 8 == 0 && sp + |str| + 1 <= Top(ptrs)
    ensures Image(s', r, prog, strs + [str], ptrs + [sp])
  {
    hide UserOwned, Wrote, Reads, Stacked;
    ImageKept(s, s', r, prog, strs, ptrs, sp, str + [0]);
    ReadsWrote(s, s', r, sp, str + [0]);
    StackedMore(|prog|, strs, ptrs, str, sp);
  }

  // ------------------------------------------------------------ the arithmetic

  /** Where something of len bytes goes below top, if there is room above 0. */
  function Below(top: int, len: nat, align: nat): int
    requires align > 0
  {
    (top - len) - (top - len) % align
  }

  /** Where the last of the strings goes. */
  function StackTop(strs: seq<seq<Byte>>): int {
    if strs == [] then PGSIZE
    else Below(StackTop(strs[..|strs| - 1]), |strs[|strs| - 1]| + 1, 8)
  }

  /** The strings and the pointer array fit between the code and the end of the page. */
  predicate ArgsFit(size: nat, strs: seq<seq<Byte>>) {
    size <= Below(StackTop(strs), 8 * (|strs| + 1), 16)
  }

  /** What the strings take, each with its NUL and rounded up to eight bytes. */
  function Rounded(strs: seq<seq<Byte>>): nat {
    if strs == [] then 0 else Rounded(strs[..|strs| - 1]) + (|strs[|strs| - 1]| + 8) / 8 * 8
  }

  lemma {:induction false} StackTopIs(strs: seq<seq<Byte>>)
    ensures StackTop(strs) == 4096 - Rounded(strs) && StackTop(strs) % 8 == 0
    decreases |strs|
  {
    if strs != [] {
      StackTopIs(strs[..|strs| - 1]);
      BelowEight(StackTop(strs[..|strs| - 1]), |strs[|strs| - 1]|);
    }
  }

  lemma BelowEight(top: int, len: nat)
    requires top % 8 == 0
    ensures Below(top, len + 1, 8) == top - (len + 8) / 8 * 8
  {
  }

  /** The arguments fit exactly when a 16-aligned pointer array, the null pointer counted in, and the rounded
      strings have room between the code and the end of the page. */
  lemma FitsByLengths(size: nat, strs: seq<seq<Byte>>)
    ensures ArgsFit(size, strs) <==>
            exists a :: size <= a && a % 16 == 0 && a + 8 * (|strs| + 1) + Rounded(strs) <= 4096
  {
    hide StackTop, Rounded;
    StackTopIs(strs);
    var x := StackTop(strs) - 8 * (|strs| + 1);
    var b := Below(StackTop(strs), 8 * (|strs| + 1), 16);
    assert b == x - x % 16 && b % 16 == 0;
    if a :| size <= a && a % 16 == 0 && a + 8 * (|strs| + 1) + Rounded(strs) <= 4096 {
      assert a <= x;
      assert a <= b;
    }
  }

  lemma {:induction false} StackFalls(strs: seq<seq<Byte>>, n: nat)
    requires n <= |strs|
    ensures StackTop(strs) <= StackTop(strs[..n])
    decreases |strs|
  {
    if n < |strs| {
      var less := strs[..|strs| - 1];
      StackFalls(less, n);
      assert less[..n] == strs[..n];
    } else {
      assert strs[..n] == strs;
    }
  }

  /** The strings of the argument buffer. */
  function BufStrs(b: seq<Byte>, n: nat): (strs: seq<seq<Byte>>)
    ensures |strs| == n && forall i :: 0 <= i < n ==> strs[i] == StrAt(b, MAXPATH * i)
  {
    if n == 0 then [] else BufStrs(b, n - 1) + [StrAt(b, MAXPATH * (n - 1))]
  }

  lemma BufStrsIs(b: seq<Byte>, n: nat, strs: seq<seq<Byte>>)
    requires |strs| == n && forall i :: 0 <= i < n ==> strs[i] == StrAt(b, MAXPATH * i)
    ensures BufStrs(b, n) == strs
  {
  }

  lemma BufStrsPrefix(b: seq<Byte>, n: nat, k: nat)
    requires k <= n
    ensures BufStrs(b, n)[..k] == BufStrs(b, k)
  {
  }

  /** What the wrapping subtraction gives is right whenever it does not wrap. */
  lemma BelowIs(top: nat, len: nat, align: nat)
    requires align > 0 && len <= top <= TWO64
    ensures AlignDown(SubWrap(top, len), align) == Below(top, len, align)
  {
  }

  /** Where the next string goes, if it does not wrap around. */
  lemma NextSp(top: nat, len: nat)
    requires top <= PGSIZE && 0 < len < 0x8000_0000
    ensures var sp := AlignDown(SubWrap(top, len), 8);
            && sp % 8 == 0 && (len <= top ==> sp + len <= top)
            && (len > top ==> sp / PGSIZE >= MAXVPN)
  {
  }

  lemma LastSp(top: nat, n: nat)
    requires top <= PGSIZE && 0 < n <= MAXARG + 1
    ensures var sp := AlignDown(SubWrap(top, 8 * n), 16);
            && sp % 16 == 0 && (8 * n <= top ==> sp + 8 * n <= top)
            && (8 * n > top ==> sp / PGSIZE >= MAXVPN)
  {
  }
}
