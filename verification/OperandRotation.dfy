/** Cold operands: how many operand sets the matrix-product benchmark keeps, and the order in which
    the warm-up and the timed iterations use them. */
module OperandRotation {
  import opened Arithmetic

  /** Enough sets that all but one of them cover the last-level cache. */
  function SetCount(llcSize: nat, memOccupied: nat): nat
    requires memOccupied > 0
  {
    CeilDiv(llcSize, memOccupied) + 1
  }

  /** The timed loop's choice of operand set: the counter starts at one, after the warm-up on set 0. */
  method TimedLoop(iterations: nat, count: nat) returns (used: seq<nat>)
    requires count > 0
    ensures |used| == iterations && forall i :: 0 <= i < iterations ==> used[i] == (i + 1) % count < count
  {
    used := [];
    var counter := 1;
    for i := 0 to iterations
      invariant counter == i + 1 && |used| == i
      invariant forall k :: 0 <= k < i ==> used[k] == (k + 1) % count
    {
      var inputNum := Max(0, counter % count);
      used := used + [inputNum];
      counter := counter + 1;
    }
  }

  /** The whole run: the warm-up, then the timed iterations. */
  ghost predicate IsRun(run: seq<nat>, count: nat)
    requires count > 0
  {
    forall t :: 0 <= t < |run| ==> run[t] == t % count
  }

  lemma WarmUpThenLoop(used: seq<nat>, count: nat)
    requires count > 0 && forall i :: 0 <= i < |used| ==> used[i] == (i + 1) % count
    ensures IsRun([0] + used, count)
  {
    DivUnique(0, count, 0, 0);
  }

  /** A window that starts r steps into a round reaches the slot in this round or in the next. */
  lemma WindowPlace(count: nat, start: nat, q: nat, r: nat, slot: nat) returns (n: nat, t: nat)
    requires start == q * count + r && r < count && slot < count
    ensures start <= t < start + count && t == n * count + slot
  {
    MulSucc(q, count);
    n := if slot >= r then q else q + 1;
    t := n * count + slot;
  }

  lemma OnlyHit(count: nat, start: nat, t: nat, u: nat)
    requires start <= t < start + count && start <= u < start + count && t % count == u % count
    ensures t == u
  {
    SameSlotApart(count, if u < t then u else t, if u < t then t else u);
  }

  /** The one time in a window of count steps that a given set is used. */
  lemma WindowHit(count: nat, start: nat, slot: nat) returns (t: nat)
    requires slot < count
    ensures start <= t < start + count && t % count == slot
    ensures forall u: nat :: start <= u < start + count && u % count == slot ==> u == t
  {
    var n;
    DivModEquation(start, count);
    n, t := WindowPlace(count, start, Quotient(start, count), start % count, slot);
    DivUnique(t, count, n, slot);
    forall u: nat | start <= u < start + count && u % count == slot
      ensures u == t
    {
      OnlyHit(count, start, t, u);
    }
  }

  /** Two uses of the same set are at least count steps apart. */
  lemma SameSlotApart(count: nat, t: nat, u: nat)
    requires count > 0 && t <= u && t % count == u % count
    ensures t == u || t + count <= u
  {
    DivModEquation(t, count);
    DivModEquation(u, count);
    if t < u {
      if u / count <= t / count {
        MulMonotone(u / count, t / count, count);
      }
      MulStrict(t / count, u / count, count);
    }
  }

  /** Every window of count steps of a run uses every operand set exactly once. */
  lemma WindowUsesEachOnce(run: seq<nat>, count: nat, start: nat, slot: nat) returns (t: nat)
    requires count > 0 && IsRun(run, count) && start + count <= |run| && slot < count
    ensures start <= t < start + count && run[t] == slot
    ensures forall u :: start <= u < start + count && run[u] == slot ==> u == t
  {
    t := WindowHit(count, start, slot);
  }

  /** Between two uses of a set, every other set is used; there are count - 1 of them, and together they
      hold at least the last-level cache. One set fewer would not. */
  lemma ReusedSetIsCold(run: seq<nat>, llcSize: nat, memOccupied: nat, t: nat, u: nat, other: nat)
    returns (between: nat)
    requires memOccupied > 0 && IsRun(run, SetCount(llcSize, memOccupied))
    requires t < u < |run| && run[t] == run[u]
    requires other < SetCount(llcSize, memOccupied) && other != run[t]
    ensures t < between < u && run[between] == other
    ensures (SetCount(llcSize, memOccupied) - 1) * memOccupied >= llcSize
    ensures llcSize > 0 ==> (SetCount(llcSize, memOccupied) - 2) * memOccupied < llcSize
  {
    var count := SetCount(llcSize, memOccupied);
    CeilDivCounts(llcSize, memOccupied);
    SameSlotApart(count, t, u);
    between := WindowUsesEachOnce(run, count, t, other);
  }
}
