/** The reference-counted body scroll lock of the callout modal.
    Every document body carries one record `{count, prev}`; the body's
    `overflow` style is only touched when the count leaves or returns to 0. */
module ScrollLock {

  /** The lock record of one body together with the body's overflow style. */
  datatype LockState = LockState(count: nat, prev: string, overflow: string)

  /** The record a body gets the first time it is locked or unlocked. */
  function Initial(overflow: string): LockState
  {
    LockState(0, "", overflow)
  }

  /** One lock request: only the 0 -> 1 transition saves and hides the overflow. */
  function Lock(s: LockState): (r: LockState)
    ensures r.count == s.count + 1
    ensures s.count == 0 ==> r.prev == s.overflow && r.overflow == "hidden"
    ensures s.count > 0 ==> r.prev == s.prev && r.overflow == s.overflow
  {
    if s.count == 0 then LockState(1, s.overflow, "hidden")
    else s.(count := s.count + 1)
  }

  /** One release: the count never goes below 0, and the saved overflow
      (`prev || ''`, which for a string is `prev` itself) is written back
      whenever the count ends at 0. */
  function Unlock(s: LockState): (r: LockState)
    ensures r.count == s.count - 1 || r.count == s.count == 0
    ensures r.prev == s.prev
    ensures r.count == 0 ==> r.overflow == s.prev
    ensures r.count > 0 ==> r.overflow == s.overflow
  {
    var c := if s.count == 0 then 0 else s.count - 1;
    if c == 0 then LockState(0, s.prev, s.prev)
    else s.(count := c)
  }

  function Step(s: LockState, lock: bool): LockState
  {
    if lock then Lock(s) else Unlock(s)
  }

  /** `n` nested lock requests. */
  function LockN(s: LockState, n: nat): LockState
    decreases n
  {
    if n == 0 then s else LockN(Lock(s), n - 1)
  }

  /** `n` releases. */
  function UnlockN(s: LockState, n: nat): LockState
    decreases n
  {
    if n == 0 then s else UnlockN(Unlock(s), n - 1)
  }

  /** A sequence of lock (`true`) and unlock (`false`) requests, in order. */
  function Run(s: LockState, ops: seq<bool>): LockState
    decreases ops
  {
    if ops == [] then s else Run(Step(s, ops[0]), ops[1..])
  }

  /** Locks minus unlocks in `ops`. */
  function Depth(ops: seq<bool>): int
  {
    if ops == [] then 0 else (if ops[0] then 1 else -1) + Depth(ops[1..])
  }

  /** Every prefix of `ops`, started from `count` held locks, keeps the
      number of locks at least the number of releases. */
  ghost predicate WellNested(count: nat, ops: seq<bool>)
  {
    forall k :: 0 <= k <= |ops| ==> count + Depth(ops[..k]) >= 0
  }

  /** What the lock keeps about the overflow the page had before any lock:
      unlocked, the body shows it; locked, it is saved and the body is hidden. */
  ghost predicate Keeps(s: LockState, original: string)
  {
    (s.count == 0 ==> s.overflow == original) &&
    (s.count > 0 ==> s.prev == original && s.overflow == "hidden")
  }

  lemma {:induction false} LocksFromUnlocked(s: LockState, n: nat)
    requires s.count == 0 && n > 0
    ensures LockN(s, n) == LockState(n, s.overflow, "hidden")
  {
    if n > 1 {
      LocksWhileLocked(Lock(s), n - 1);
    }
  }

  lemma {:induction false} LocksWhileLocked(s: LockState, n: nat)
    requires s.count > 0
    ensures LockN(s, n) == s.(count := s.count + n)
    decreases n
  {
    if n > 0 {
      LocksWhileLocked(Lock(s), n - 1);
    }
  }

  lemma {:induction false} UnlocksWhileLocked(s: LockState, n: nat)
    requires n < s.count
    ensures UnlockN(s, n) == s.(count := s.count - n)
    decreases n
  {
    if n > 0 {
      UnlocksWhileLocked(Unlock(s), n - 1);
    }
  }

  /** Nesting round trip: from an unlocked body, `n` locks followed by `n`
      unlocks leave the count at 0 and the overflow as it was. */
  lemma {:induction false} NestedRoundTrip(s: LockState, n: nat)
    requires s.count == 0
    ensures UnlockN(LockN(s, n), n).count == 0
    ensures UnlockN(LockN(s, n), n).overflow == s.overflow
  {
    if n > 0 {
      var locked := LockN(s, n);
      LocksFromUnlocked(s, n);
      UnlocksWhileLocked(locked, n - 1);
      assert UnlockN(locked, n - 1) == locked.(count := 1);
      UnlockLast(locked, n);
    }
  }

  lemma {:induction false} UnlockLast(s: LockState, n: nat)
    requires n > 0 && s.count == n
    requires UnlockN(s, n - 1) == s.(count := 1)
    ensures UnlockN(s, n) == Unlock(s.(count := 1))
    decreases n
  {
    if n > 1 {
      UnlockLast(Unlock(s), n - 1);
    }
  }

  lemma DepthPrefix(ops: seq<bool>, k: nat)
    requires 0 < k <= |ops|
    ensures Depth(ops[..k]) == (if ops[0] then 1 else -1) + Depth(ops[1..][..k - 1])
  {
    assert ops[..k][1..] == ops[1..][..k - 1];
  }

  /** Any well-nested sequence of requests tracks its depth in `count`
      and keeps the page's original overflow. */
  lemma {:induction false} RunKeeps(s: LockState, ops: seq<bool>, original: string)
    requires Keeps(s, original)
    requires WellNested(s.count, ops)
    ensures Run(s, ops).count == s.count + Depth(ops)
    ensures Keeps(Run(s, ops), original)
    decreases ops
  {
    if ops != [] {
      assert ops[..1] == [ops[0]];
      assert Depth(ops[..1]) == (if ops[0] then 1 else -1) by {
        assert ops[..1][1..] == [];
      }
      var t := Step(s, ops[0]);
      assert t.count == s.count + Depth(ops[..1]);
      forall k | 0 <= k <= |ops[1..]|
        ensures t.count + Depth(ops[1..][..k]) >= 0
      {
        DepthPrefix(ops, k + 1);
      }
      RunKeeps(t, ops[1..], original);
    }
  }

  /** Overlapping popovers: however the lock and unlock requests of several
      callouts interleave, once every lock is released the body's overflow
      is exactly what it was before the first lock. */
  lemma BalancedRunRestores(overflow: string, ops: seq<bool>)
    requires WellNested(0, ops) && Depth(ops) == 0
    ensures Run(Initial(overflow), ops).count == 0
    ensures Run(Initial(overflow), ops).overflow == overflow
  {
    RunKeeps(Initial(overflow), ops, overflow);
  }

  /** The body of one document with its lock record
      (`body.__callout_scroll_lock__` and `body.style.overflow`). */
  class Body {
    var count: nat
    var prev: string
    var overflow: string

    /** A body that has never been locked: the record is created lazily as `{count: 0, prev: ''}`. */
    constructor (overflow: string)
      ensures count == 0 && prev == "" && this.overflow == overflow
    {
      count, prev, this.overflow := 0, "", overflow;
    }

    function State(): LockState
      reads this
    {
      LockState(count, prev, overflow)
    }

    /** `lockBodyScroll(lock)`. */
    method LockBodyScroll(lock: bool)
      modifies this
      ensures lock ==> count == old(count) + 1
      ensures lock && old(count) == 0 ==> prev == old(overflow) && overflow == "hidden"
      ensures lock && old(count) > 0 ==> prev == old(prev) && overflow == old(overflow)
      ensures !lock ==> count == (if old(count) == 0 then 0 else old(count) - 1) && prev == old(prev)
      ensures !lock && count == 0 ==> overflow == old(prev)
      ensures !lock && count > 0 ==> overflow == old(overflow)
      ensures State() == Step(old(State()), lock)
    {
      if lock {
        if count == 0 {
          prev := overflow;
          overflow := "hidden";
        }
        count := count + 1;
      } else {
        count := if count == 0 then 0 else count - 1;
        if count == 0 {
          overflow := prev;
        }
      }
    }
  }
}
