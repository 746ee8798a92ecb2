/**
 * The reducer registry: the three merge functions the state declarations
 * attach to their fields (src/state.py, state.py, graph.py). A reducer takes
 * the value a field holds and the value a node wrote, and returns the
 * field's next value.
 */
module Reducers {

  /** `r` holds `held` in front, unchanged and in order, and `written` right after it. */
  ghost predicate Accumulated<T>(r: seq<T>, held: seq<T>, written: seq<T>)
  {
    |r| == |held| + |written| && r[..|held|] == held && r[|held|..] == written
  }

  /** `take_latest(old_value, new_value)`: the written value replaces the held one. */
  function TakeLatest<T>(oldValue: T, newValue: T): (r: T)
    ensures r == newValue
  {
    newValue
  }

  /**
   * `operator.concat` on two strings. A string is a sequence of characters,
   * so it merges exactly as `operator.add` merges lists.
   */
  function Concat(held: string, written: string): (r: string)
    ensures Accumulated(r, held, written)
  {
    Append(held, written)
  }

  /** `operator.add` on two lists. */
  function Append<T>(held: seq<T>, written: seq<T>): (r: seq<T>)
    ensures Accumulated(r, held, written)
  {
    held + written
  }

  /** Writing the same value twice through `take_latest` is the same as writing it once. */
  lemma TakeLatestIdempotent<T>(held: T, written: T)
    ensures TakeLatest(TakeLatest(held, written), written) == TakeLatest(held, written) == written
  {
  }

  /**
   * Two writes to a concatenated field accumulate: the held text stays in
   * front, both writes follow in order, and nothing is replaced.
   */
  lemma ConcatAccumulates(held: string, first: string, second: string)
    ensures Concat(Concat(held, first), second) == held + first + second
    ensures |Concat(Concat(held, first), second)| == |held| + |first| + |second|
    ensures first != [] ==> Concat(Concat(held, first), second) != Concat(held, second)
  {
    if first != [] {
      assert |held + first + second| > |held + second|;
    }
  }

  /** The empty string is a two-sided identity of the concatenation reducer. */
  lemma ConcatIdentity(s: string)
    ensures Concat(s, "") == s && Concat("", s) == s
  {
  }

  lemma AppendAssociative<T>(a: seq<T>, b: seq<T>, c: seq<T>)
    ensures Append(Append(a, b), c) == Append(a, Append(b, c))
  {
  }

  /** The list a field holds after the writes of several branches are appended in turn. */
  function AppendAll<T>(held: seq<T>, writes: seq<seq<T>>): seq<T>
    decreases |writes|
  {
    if writes == [] then held else AppendAll(Append(held, writes[0]), writes[1..])
  }

  /** One single-item write per branch, in the order the branches finished. */
  function Singletons<T>(arrivals: seq<T>): (writes: seq<seq<T>>)
    ensures |writes| == |arrivals|
    ensures forall i :: 0 <= i < |arrivals| ==> writes[i] == [arrivals[i]]
  {
    seq(|arrivals|, i requires 0 <= i < |arrivals| => [arrivals[i]])
  }

  /** Folding single-item writes appends the items in arrival order. */
  lemma {:induction false} AppendAllSingletons<T>(held: seq<T>, arrivals: seq<T>)
    ensures AppendAll(held, Singletons(arrivals)) == held + arrivals
    decreases |arrivals|
  {
    if arrivals != [] {
      assert Singletons(arrivals)[1..] == Singletons(arrivals[1..]);
      AppendAllSingletons(held + [arrivals[0]], arrivals[1..]);
      assert held + [arrivals[0]] + arrivals[1..] == held + arrivals;
    }
  }

  /**
   * N single-item branch writes, merged in any two arrival orders, give N
   * new entries with the same multiset; only the sequence may differ.
   */
  lemma BranchOrderIrrelevantUpToPermutation<T>(held: seq<T>, order1: seq<T>, order2: seq<T>)
    requires multiset(order1) == multiset(order2)
    ensures |AppendAll(held, Singletons(order1))| == |held| + |order1| == |held| + |order2|
    ensures multiset(AppendAll(held, Singletons(order1))) == multiset(AppendAll(held, Singletons(order2)))
  {
    AppendAllSingletons(held, order1);
    AppendAllSingletons(held, order2);
    assert |order1| == |multiset(order1)| == |multiset(order2)| == |order2|;
  }
}
