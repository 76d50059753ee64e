/** Machine constants, fixed-width integers and the small sequence library the model shares. */
module Basics {

  datatype Option<+T> = None | Some(value: T)

  const PAGE_SIZE: nat := 256
  const UNMAPPED: nat := 0xFFFF_FFFF
  const WORD_RANGE: nat := 0x1_0000_0000
  /** Frames of a 32-bit physical address space; frame * PAGE_SIZE never wraps below it. */
  const MAX_FRAMES: nat := 0x100_0000

  type Byte = b: int | 0 <= b < 256
  type Word = w: int | 0 <= w < 0x1_0000_0000
  type Page = p: seq<Byte> | |p| == 256 witness seq(256, _ => 0)

  function ZeroPage(): (p: Page)
    ensures forall o | 0 <= o < 256 :: p[o] == 0
  {
    seq(256, _ => 0)
  }

  /** static_cast<uint32_t> */
  function ToWord(x: int): Word {
    x % 0x1_0000_0000
  }

  /** static_cast<int32_t> of the low 32 bits */
  function ToInt32(x: int): int {
    var w := ToWord(x);
    if w >= 0x8000_0000 then w - 0x1_0000_0000 else w
  }

  /** Two's complement wrap of a 64-bit register. */
  function ToInt64(x: int): int {
    (x + 0x8000_0000_0000_0000) % 0x1_0000_0000_0000_0000 - 0x8000_0000_0000_0000
  }

  ghost predicate NoDup<T>(l: seq<T>) {
    forall a, b | 0 <= a < b < |l| :: l[a] != l[b]
  }

  ghost function SetOf<T>(l: seq<T>): set<T> {
    set x | x in l
  }

  /** The list `l` with every element of `drop` erased. */
  function Without<T(==,!new)>(l: seq<T>, drop: set<T>): (r: seq<T>)
    ensures forall x {:trigger x in r} | x in r :: x in l && x !in drop
    ensures |r| <= |l|
  {
    if l == [] then []
    else if l[0] in drop then Without(l[1..], drop)
    else [l[0]] + Without(l[1..], drop)
  }

  /** The first `n` elements, or all of them. */
  function Take<T>(l: seq<T>, n: nat): seq<T> {
    if n < |l| then l[..n] else l
  }

  lemma {:induction false} WithoutMembers<T(!new)>(l: seq<T>, drop: set<T>)
    ensures forall x :: x in Without(l, drop) <==> x in l && x !in drop
  {
    if l != [] {
      WithoutMembers(l[1..], drop);
    }
  }

  lemma {:induction false} WithoutNoDup<T(!new)>(l: seq<T>, drop: set<T>)
    requires NoDup(l)
    ensures NoDup(Without(l, drop))
  {
    if l != [] {
      WithoutNoDup(l[1..], drop);
      WithoutMembers(l[1..], drop);
      var r := Without(l[1..], drop);
      assert l[0] !in r by { assert l[0] !in l[1..]; }
      assert forall b | 0 <= b < |r| :: r[b] in r;
    }
  }

  lemma {:induction false} WithoutNothing<T(!new)>(l: seq<T>, drop: set<T>)
    requires forall x | x in l :: x !in drop
    ensures Without(l, drop) == l
  {
    if l != [] {
      WithoutNothing(l[1..], drop);
    }
  }

  lemma WithoutHead<T(!new)>(l: seq<T>, drop: set<T>)
    requires l != []
    ensures Without(l, drop) == if l[0] in drop then Without(l[1..], drop) else [l[0]] + Without(l[1..], drop)
  {}

  lemma WithoutEmpty<T(!new)>(drop: set<T>)
    ensures Without([], drop) == []
  {}

  lemma Assoc<T>(h: T, a: seq<T>, b: seq<T>)
    ensures ([h] + a) + b == [h] + (a + b)
  {}

  lemma {:induction false} WithoutAppend<T(!new)>(a: seq<T>, b: seq<T>, drop: set<T>)
    ensures Without(a + b, drop) == Without(a, drop) + Without(b, drop)
  {
    hide Without;
    if a == [] {
      WithoutEmpty(drop);
      assert a + b == b;
    } else {
      WithoutAppend(a[1..], b, drop);
      WithoutHead(a + b, drop);
      WithoutHead(a, drop);
      assert (a + b)[1..] == a[1..] + b;
      Assoc(a[0], Without(a[1..], drop), Without(b, drop));
    }
  }

  lemma {:induction false} WithoutTwice<T(!new)>(l: seq<T>, s: set<T>, t: set<T>)
    ensures Without(Without(l, s), t) == Without(l, s + t)
  {
    if l != [] {
      WithoutTwice(l[1..], s, t);
      if l[0] !in s {
        WithoutAppend([l[0]], Without(l[1..], s), t);
      }
    }
  }

  /** Erasing one element of a duplicate-free list cuts it at that position. */
  lemma {:induction false} WithoutAt<T(!new)>(l: seq<T>, k: nat)
    requires NoDup(l) && k < |l|
    ensures Without(l, {l[k]}) == l[..k] + l[k + 1..]
  {
    assert l == l[..k] + ([l[k]] + l[k + 1..]);
    WithoutAppend(l[..k], [l[k]] + l[k + 1..], {l[k]});
    WithoutAppend([l[k]], l[k + 1..], {l[k]});
    WithoutNothing(l[..k], {l[k]});
    WithoutNothing(l[k + 1..], {l[k]});
  }

  /** A duplicate-free list of numbers below n has at most n elements, and n exactly when it has them all. */
  lemma {:induction false} NoDupBound(l: seq<nat>, n: nat)
    requires NoDup(l) && forall x | x in l :: x < n
    ensures |l| <= n
    ensures |l| == n <==> forall x: nat | x < n :: x in l
    decreases n
  {
    assert l != [] ==> l[0] in l;
    if n == 0 {
    } else if n - 1 in l {
      var k :| 0 <= k < |l| && l[k] == n - 1;
      WithoutAt(l, k);
      var rest: seq<nat> := Without<nat>(l, {n - 1});
      WithoutNoDup<nat>(l, {n - 1});
      WithoutMembers<nat>(l, {n - 1});
      NoDupBound(rest, n - 1);
      assert |rest| == |l| - 1;
    } else {
      forall x | x in l ensures x < n - 1 {}
      NoDupBound(l, n - 1);
    }
  }
}
