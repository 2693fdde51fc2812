/** Atomic semaphores, as the layers above see them. */
module Semaphores {
  /** A binary semaphore's down: passes on any nonzero value and leaves 0. */
  ghost predicate BinaryDown(v: int, v': int) { v != 0 && v' == 0 }

  /** A binary semaphore's up: always leaves 1. */
  ghost predicate BinaryUp(v: int, v': int) { v' == 1 }

  /** A counting semaphore's down: passes on a positive value only. */
  ghost predicate Down(v: int, v': int) { v > 0 && v' == v - 1 }

  ghost predicate Up(v: int, v': int) { v' == v + 1 }
}

/** How many threads are in some part of their program, and which one is. */
module Counting {
  /** The only thread inside a region, or -1, after thread t moved: t if it is inside now, nobody if t has left. */
  function Owner(o: int, t: nat, inside: bool): int {
    if inside then t else if o == t then -1 else o
  }

  function Bit(b: bool): nat { if b then 1 else 0 }

  function Count<T>(s: seq<T>, f: T -> bool): nat {
    if s == [] then 0 else Bit(f(s[0])) + Count(s[1..], f)
  }

  lemma {:induction false} CountUpdate<T>(s: seq<T>, f: T -> bool, i: nat, x: T)
    requires i < |s|
    ensures Count(s[i := x], f) + Bit(f(s[i])) == Count(s, f) + Bit(f(x))
  {
    if i == 0 {
      assert s[i := x][1..] == s[1..];
    } else {
      CountUpdate(s[1..], f, i - 1, x);
      assert s[i := x][1..] == s[1..][i - 1 := x];
    }
  }

  lemma {:induction false} CountMember<T>(s: seq<T>, f: T -> bool, i: nat)
    requires i < |s| && f(s[i])
    ensures Count(s, f) >= 1
  {
    if i > 0 {
      CountMember(s[1..], f, i - 1);
    }
  }

  lemma {:induction false} CountNone<T>(s: seq<T>, f: T -> bool)
    requires forall i :: 0 <= i < |s| ==> !f(s[i])
    ensures Count(s, f) == 0
  {
    if s != [] {
      CountNone(s[1..], f);
    }
  }

  lemma {:induction false} CountAppend<T>(s: seq<T>, f: T -> bool, x: T)
    ensures Count(s + [x], f) == Count(s, f) + Bit(f(x))
  {
    if s == [] {
      assert Count([x][1..], f) == 0;
    } else {
      CountAppend(s[1..], f, x);
      assert (s + [x])[1..] == s[1..] + [x];
    }
  }
}
