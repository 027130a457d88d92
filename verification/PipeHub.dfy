/**
  The waiter queue of the pipe and its drains, apart from the bytes: a waiter is
  queued at most once, and a drain that covers a waiter keeps covering it until
  some drain wakes it.
*/
module PipeHub {
  import opened Bytes
  import opened Pipe

  /** `t` has popped waiter `i` and not yet cleared its `queued` flag. */
  predicate Unqueues(h: Hub, t: Thread, i: nat) {
    t in h.drains && h.drains[t].Unqueue? && h.drains[t].writer == i
  }

  /** `t` has popped waiter `i` and not yet woken it. */
  predicate Popped(h: Hub, t: Thread, i: nat) {
    t in h.drains && (h.drains[t].Unqueue? || h.drains[t].Wake?) && h.drains[t].writer == i
  }

  predicate Registered(h: Hub, i: nat) {
    i < |h.waiters| && h.waiters[i].registered
  }

  /** `i` is about to be pushed, is in the queue, or has been popped by a drain still to clear its flag. */
  ghost predicate Held(h: Hub, pushing: set<nat>, i: nat) {
    i in pushing || i in h.queue || exists t :: Unqueues(h, t, i)
  }

  /** The flag `queued` of a waiter is held in exactly one place. */
  ghost predicate QueuedOnce(h: Hub, pushing: set<nat>) {
    && (forall j, k | 0 <= j < k < |h.queue| :: h.queue[j] != h.queue[k])
    && (forall i: nat | i in h.queue :: Flagged(h, i) && i !in pushing)
    && (forall i | i in pushing :: Flagged(h, i))
    && (forall t, i | Unqueues(h, t, i) :: Flagged(h, i) && i !in pushing && i !in h.queue)
    && (forall t, u, i | Unqueues(h, t, i) && Unqueues(h, u, i) :: t == u)
    && (forall t, i: nat | Popped(h, t, i) :: i < |h.waiters|)
    && (forall i | Flagged(h, i) :: Held(h, pushing, i))
  }

  ghost predicate Findable(h: Hub, i: nat) {
    i in h.queue || exists t :: Popped(h, t, i)
  }

  /** Waiter `i` is among the first `left` of the queue. */
  ghost predicate Within(h: Hub, left: nat, i: nat) {
    exists k :: 0 <= k < |h.queue| && k < left && h.queue[k] == i
  }

  /** Drain `t` has popped waiter `i`, or has budget left to reach it in the queue, or has yet to read `len()`. */
  ghost predicate Covers(h: Hub, t: Thread, i: nat) {
    t in h.drains &&
    match h.drains[t]
    case Owed => true
    case Scan(left) => Within(h, left, i)
    case Unqueue(x, left) => x == i || Within(h, left, i)
    case Wake(x, left) => x == i || Within(h, left, i)
  }

  ghost predicate Covered(h: Hub, i: nat) {
    exists t :: Covers(h, t, i)
  }

  // ----- one step of a drain -----

  predicate Scanned(h: Hub, t: Thread) {
    t in h.drains && h.drains[t].Scan? && h.drains[t].left > 0 && h.queue != []
  }

  lemma DrainKeepsFlags(h: Hub, t: Thread, i: nat)
    ensures i in DrainStep(h, t).queue ==> i in h.queue
    ensures Flagged(DrainStep(h, t), i) == (Flagged(h, i) && !Unqueues(h, t, i))
  {
  }

  lemma DrainPops(h: Hub, t: Thread, u: Thread, i: nat)
    ensures Popped(DrainStep(h, t), u, i) ==> Popped(h, u, i) || (u == t && Scanned(h, t) && i == h.queue[0])
    ensures Unqueues(DrainStep(h, t), u, i) ==>
      (Unqueues(h, u, i) && u != t) || (u == t && Scanned(h, t) && i == h.queue[0])
  {
  }

  lemma DrainKeepsHeld(h: Hub, pushing: set<nat>, t: Thread, i: nat)
    requires QueuedOnce(h, pushing) && Flagged(DrainStep(h, t), i)
    ensures Held(DrainStep(h, t), pushing, i)
  {
    var h' := DrainStep(h, t);
    DrainKeepsFlags(h, t, i);
    assert Held(h, pushing, i);
    if u :| Unqueues(h, u, i) {
      assert Unqueues(h', u, i);
    } else if i in h.queue && i !in h'.queue {
      assert i == h.queue[0];
      assert Unqueues(h', t, i);
    }
  }

  lemma DrainKeepsQueuedOnce(h: Hub, pushing: set<nat>, t: Thread)
    requires QueuedOnce(h, pushing)
    ensures QueuedOnce(DrainStep(h, t), pushing)
  {
    var h' := DrainStep(h, t);
    if Scanned(h, t) {
      assert h.queue[0] in h.queue && h'.queue == h.queue[1..];
    }
    forall i: nat
      ensures Flagged(h', i) ==> Held(h', pushing, i)
      ensures i in h'.queue ==> Flagged(h', i) && i !in pushing
      ensures i in pushing ==> Flagged(h', i)
    {
      DrainKeepsFlags(h, t, i);
      if Flagged(h', i) {
        DrainKeepsHeld(h, pushing, t, i);
      }
    }
    forall u, i: nat
      ensures Popped(h', u, i) ==> i < |h'.waiters|
      ensures Unqueues(h', u, i) ==> Flagged(h', i) && i !in pushing && i !in h'.queue
    {
      DrainPops(h, t, u, i);
      DrainKeepsFlags(h, t, i);
    }
    forall u, v, i | Unqueues(h', u, i) && Unqueues(h', v, i)
      ensures u == v
    {
      DrainPops(h, t, u, i);
      DrainPops(h, t, v, i);
    }
  }

  lemma DrainKeepsFindable(h: Hub, t: Thread, i: nat)
    requires Findable(h, i) && Registered(DrainStep(h, t), i)
    ensures Findable(DrainStep(h, t), i)
  {
    var h' := DrainStep(h, t);
    if u :| Popped(h, u, i) {
      assert Popped(h', u, i);
    } else if Scanned(h, t) && i == h.queue[0] {
      assert Popped(h', t, i);
    }
  }

  /** Popping the front brings everyone behind it nearer; the drain that popped it pays one of its budget. */
  lemma DrainKeepsCovers(h: Hub, t: Thread, u: Thread, i: nat)
    requires Findable(h, i) && Covers(h, u, i) && Registered(DrainStep(h, t), i)
    ensures Covered(DrainStep(h, t), i)
  {
    var h' := DrainStep(h, t);
    if Scanned(h, t) && i == h.queue[0] {
      assert Covers(h', t, i);
    } else if v :| Popped(h, v, i) {
      assert Popped(h', v, i);
      assert Covers(h', v, i);
    } else {
      assert i in h.queue && !Popped(h, u, i);
      var k :| 0 <= k < |h.queue| && h.queue[k] == i && (h.drains[u].Owed? || k < h.drains[u].left);
      if Scanned(h, t) {
        assert h'.queue[k - 1] == i;
      } else {
        assert h'.queue[k] == i;
      }
      assert Covers(h', u, i);
    }
  }

  // ----- every other change -----

  /** A step of `t` outside `wake_writers`: it may take on a drain or end a finished one, and only appends to the queue. */
  ghost predicate Quiet(h: Hub, h': Hub, t: Thread) {
    && h.queue <= h'.queue
    && |h.waiters| <= |h'.waiters|
    && (forall u | u != t :: u in h'.drains <==> u in h.drains)
    && (forall u | u != t && u in h.drains :: h'.drains[u] == h.drains[u])
    && (t in h.drains ==> (t in h'.drains && h'.drains[t] == h.drains[t]) || (t !in h'.drains && h.drains[t] == Scan(0)))
    && (t in h'.drains && t !in h.drains ==> h'.drains[t] == Owed)
  }

  lemma QuietPops(h: Hub, h': Hub, t: Thread, u: Thread, i: nat)
    requires Quiet(h, h', t)
    ensures Popped(h', u, i) == Popped(h, u, i)
    ensures Unqueues(h', u, i) == Unqueues(h, u, i)
  {
  }

  lemma QuietKeepsFindable(h: Hub, h': Hub, t: Thread, i: nat)
    requires Quiet(h, h', t) && Findable(h, i)
    ensures Findable(h', i)
  {
    if u :| Popped(h, u, i) {
      QuietPops(h, h', t, u, i);
    } else {
      var k :| 0 <= k < |h.queue| && h.queue[k] == i;
      assert h'.queue[k] == i;
    }
  }

  lemma QuietKeepsCovered(h: Hub, h': Hub, t: Thread, i: nat)
    requires Quiet(h, h', t) && Covered(h, i)
    ensures Covered(h', i)
  {
    var u :| Covers(h, u, i);
    if !h.drains[u].Owed? && Within(h, h.drains[u].left, i) {
      var k :| 0 <= k < |h.queue| && k < h.drains[u].left && h.queue[k] == i;
      assert h'.queue[k] == i;
    }
    assert Covers(h', u, i);
  }

  /** A waiter may begin its push by raising its flag, or complete it by landing in the queue; all else stays. */
  lemma QuietKeepsQueuedOnce(h: Hub, h': Hub, pushing: set<nat>, pushing': set<nat>, t: Thread)
    requires QueuedOnce(h, pushing) && Quiet(h, h', t)
    requires forall i: nat | i !in pushing && i !in pushing' :: Flagged(h', i) == Flagged(h, i)
    requires forall i | i in pushing' :: Flagged(h', i) && (i in pushing || !Flagged(h, i))
    requires forall i | i in pushing && i !in pushing' :: Flagged(h', i)
    requires h'.queue == h.queue || exists i :: i in pushing && i !in pushing' && h'.queue == h.queue + [i]
    requires forall i | i in pushing && i !in pushing' :: h'.queue == h.queue + [i]
    ensures QueuedOnce(h', pushing')
  {
    forall u, i: nat
      ensures Popped(h', u, i) == Popped(h, u, i)
      ensures Unqueues(h', u, i) == Unqueues(h, u, i)
    {
      QuietPops(h, h', t, u, i);
    }
    forall i: nat
      ensures Flagged(h', i) ==> Held(h', pushing', i)
      ensures i in h'.queue ==> i in h.queue || i in pushing
    {
      if Flagged(h, i) {
        assert Held(h, pushing, i);
        if u :| Unqueues(h, u, i) {
          assert Unqueues(h', u, i);
        }
      }
    }
  }

  // ----- how soon a covered waiter is woken -----

  /** The steps a drain spends on its present waiter and on the one it is looking for. */
  function Lead(d: Drain): nat {
    match d
    case Owed => 4
    case Scan(_) => 3
    case Unqueue(_, _) => 5
    case Wake(_, _) => 4
  }

  /** Drain `t` wakes waiter `i` within `n` of its own steps, three for every waiter ahead, unless another drain gets there first. */
  ghost predicate Reaches(h: Hub, t: Thread, i: nat, n: int) {
    && t in h.drains
    && if Popped(h, t, i) then n >= (if h.drains[t].Unqueue? then 2 else 1)
       else exists k :: 0 <= k < |h.queue| && h.queue[k] == i && (h.drains[t].Owed? || k < h.drains[t].left)
                        && 3 * k + Lead(h.drains[t]) <= n
  }

  ghost predicate Reached(h: Hub, i: nat, n: int) {
    exists t :: Reaches(h, t, i, n)
  }

  lemma ReachesLater(h: Hub, t: Thread, i: nat, n: int)
    requires Reaches(h, t, i, n)
    ensures Reaches(h, t, i, n + 1)
  {
  }

  lemma CoveredIsReached(h: Hub, i: nat)
    requires Findable(h, i) && Covered(h, i)
    ensures Reached(h, i, 3 * |h.queue| + 2)
  {
    if u :| Popped(h, u, i) {
      assert Reaches(h, u, i, 3 * |h.queue| + 2);
    } else {
      var u :| Covers(h, u, i);
      assert i in h.queue && !Popped(h, u, i);
      assert Reaches(h, u, i, 3 * |h.queue| + 2);
    }
  }

  /** A drain's own step uses up one of the steps; anybody else's step uses up none. */
  lemma DrainApproaches(h: Hub, t: Thread, u: Thread, i: nat, n: int)
    requires Reaches(h, u, i, n) && Registered(DrainStep(h, t), i)
    ensures
      || Reaches(DrainStep(h, t), u, i, if t == u then n - 1 else n)
      || Reaches(DrainStep(h, t), t, i, if t == u then n - 1 else n)
  {
    var h' := DrainStep(h, t);
    var m := if t == u then n - 1 else n;
    if Popped(h, u, i) {
      assert Reaches(h', u, i, m);
    } else {
      var k :| 0 <= k < |h.queue| && h.queue[k] == i && (h.drains[u].Owed? || k < h.drains[u].left)
               && 3 * k + Lead(h.drains[u]) <= n;
      if Scanned(h, t) && k == 0 {
        assert Reaches(h', t, i, m);
      } else if Scanned(h, t) {
        assert h'.queue[k - 1] == i;
        assert Reaches(h', u, i, m);
      } else {
        assert h'.queue[k] == i;
        assert Reaches(h', u, i, m);
      }
    }
  }

  lemma QuietKeepsReached(h: Hub, h': Hub, t: Thread, u: Thread, i: nat, n: int)
    requires Quiet(h, h', t) && Reaches(h, u, i, n)
    ensures Reaches(h', u, i, n)
  {
    if !Popped(h, u, i) {
      var k :| 0 <= k < |h.queue| && h.queue[k] == i && (h.drains[u].Owed? || k < h.drains[u].left)
               && 3 * k + Lead(h.drains[u]) <= n;
      assert h'.queue[k] == i;
    }
  }
}
