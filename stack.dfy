/**
 * The continuation stack (stack.c): one process-wide LIFO list of values
 * with three statistics counters. The top of the stack is `stack[0]`, as
 * the C list keeps the most recently saved cell at its head.
 */
module Stack {
  import opened Objects

  class ContinuationStack {
    var stack: seq<Value>
    var saveCount: int
    var currStackDepth: int
    var maxStackDepth: int

    /**
     * The counters agree with the contents: what holds from the start when
     * only `Save` and `Restore` are used.
     */
    ghost predicate Consistent()
      reads this
    {
      currStackDepth == |stack| && currStackDepth <= maxStackDepth <= saveCount
    }

    /** The globals' static initial state: an empty list and zeroed counters. */
    constructor ()
      ensures stack == [] && saveCount == 0 && currStackDepth == 0 && maxStackDepth == 0
      ensures Consistent()
    {
      stack := [];
      saveCount, currStackDepth, maxStackDepth := 0, 0, 0;
    }

    /** reset_stats: zeroes the three counters; the contents are untouched. */
    method ResetStats()
      modifies this
      ensures stack == old(stack)
      ensures saveCount == 0 && currStackDepth == 0 && maxStackDepth == 0
    {
      saveCount := 0;
      currStackDepth := 0;
      maxStackDepth := 0;
    }

    /**
     * save: pushes `reg`, counts the save, and raises the maximum depth to
     * the new depth when that is larger.
     */
    method Save(reg: Value)
      modifies this
      ensures stack == [reg] + old(stack)
      ensures saveCount == old(saveCount) + 1
      ensures currStackDepth == old(currStackDepth) + 1
      ensures maxStackDepth == if currStackDepth > old(maxStackDepth) then currStackDepth else old(maxStackDepth)
      ensures old(Consistent()) ==> Consistent()
    {
      stack := [reg] + stack;
      saveCount := saveCount + 1;
      currStackDepth := currStackDepth + 1;
      maxStackDepth := if currStackDepth > maxStackDepth then currStackDepth else maxStackDepth;
    }

    /**
     * restore: pops and returns the top value and decrements the current
     * depth. The C code does not check for an empty stack, so callers must
     * not restore from one.
     */
    method Restore() returns (reg: Value)
      requires stack != []
      modifies this
      ensures reg == old(stack[0]) && stack == old(stack[1..])
      ensures currStackDepth == old(currStackDepth) - 1
      ensures saveCount == old(saveCount) && maxStackDepth == old(maxStackDepth)
      ensures old(Consistent()) ==> Consistent()
    {
      reg := stack[0];
      stack := stack[1..];
      currStackDepth := currStackDepth - 1;
    }

    /** clear_stack: unlinks every cell; the counters are not touched. */
    method ClearStack()
      modifies this
      ensures stack == []
      ensures saveCount == old(saveCount) && currStackDepth == old(currStackDepth)
      ensures maxStackDepth == old(maxStackDepth)
    {
      while stack != []
        invariant saveCount == old(saveCount) && currStackDepth == old(currStackDepth)
        invariant maxStackDepth == old(maxStackDepth)
        decreases |stack|
      {
        stack := stack[1..];
      }
    }

    /** initialize_stack: clears the stack and sets it to the empty list. */
    method InitializeStack()
      modifies this
      ensures stack == []
      ensures saveCount == old(saveCount) && currStackDepth == old(currStackDepth)
      ensures maxStackDepth == old(maxStackDepth)
    {
      ClearStack();
      stack := [];
    }
  }

  /**
   * Two saves followed by two restores on a fresh stack: the values come
   * back in the reverse order, and the statistics read two saves, depth
   * zero and maximum depth two.
   */
  method SaveRestoreOrder(a: Value, b: Value) returns (first: Value, second: Value, saves: int, depth: int, maxDepth: int)
    ensures first == b && second == a
    ensures saves == 2 && depth == 0 && maxDepth == 2
  {
    var s := new ContinuationStack();
    s.Save(a);
    s.Save(b);
    first := s.Restore();
    second := s.Restore();
    saves, depth, maxDepth := s.saveCount, s.currStackDepth, s.maxStackDepth;
  }

  /**
   * `save(x)` followed by `restore` hands back `x` and leaves the contents
   * and the current depth as they were; only the save count has moved on.
   */
  method SaveThenRestore(s: ContinuationStack, x: Value) returns (y: Value)
    modifies s
    ensures y == x
    ensures s.stack == old(s.stack) && s.currStackDepth == old(s.currStackDepth)
    ensures s.saveCount == old(s.saveCount) + 1 && s.maxStackDepth >= old(s.maxStackDepth)
  {
    s.Save(x);
    y := s.Restore();
  }
}
