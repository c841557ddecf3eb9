/** `atomic_flag`: test-and-set is an atomic exchange with 1, clear an atomic store of 0, both
    sequentially consistent, so a run is an interleaving of whole operations. */
module AtomicFlags {

  type Thread = nat

  // ----- The object -----

  class AtomicFlag {
    var value: bool

    /** ATOMIC_FLAG_INIT */
    constructor ()
      ensures !value
    {
      value := false;
    }

    /** atomic_flag_test_and_set: stores 1 and returns the previous value. */
    method TestAndSet() returns (previous: bool)
      modifies this
      ensures previous == old(value) && value
    {
      previous := value;
      value := true;
    }

    /** atomic_flag_clear: stores 0. */
    method Clear()
      modifies this
      ensures !value
    {
      value := false;
    }
  }

  // ----- Interleavings -----

  datatype Operation = TestAndSet(thread: Thread) | Clear(thread: Thread)

  /** An operation that has taken effect, with what it returned. */
  datatype Event = Tested(thread: Thread, previous: bool) | Cleared(thread: Thread)

  /** The flag after a history that starts from ATOMIC_FLAG_INIT. */
  function ValueAfter(h: seq<Event>): bool {
    if h == [] then false else
    match h[|h| - 1]
    case Tested(_, _) => true
    case Cleared(_) => false
  }

  /** Every test-and-set returned the value that the flag had. */
  predicate Legal(h: seq<Event>) {
    forall i | 0 <= i < |h| :: h[i].Tested? ==> h[i].previous == ValueAfter(h[..i])
  }

  /** Performs the operations in the given order, whichever threads they come from. */
  method Perform(flag: AtomicFlag, operations: seq<Operation>) returns (h: seq<Event>)
    requires !flag.value
    modifies flag
    ensures Legal(h) && |h| == |operations|
    ensures forall i | 0 <= i < |h| :: h[i].thread == operations[i].thread && h[i].Tested? == operations[i].TestAndSet?
    ensures flag.value == ValueAfter(h)
  {
    h := [];
    for n := 0 to |operations|
      invariant |h| == n && Legal(h) && flag.value == ValueAfter(h)
      invariant forall i | 0 <= i < n :: h[i].thread == operations[i].thread && h[i].Tested? == operations[i].TestAndSet?
    {
      ghost var before := h;
      match operations[n]
      case TestAndSet(t) =>
        var previous := flag.TestAndSet();
        h := h + [Tested(t, previous)];
      case Clear(t) =>
        flag.Clear();
        h := h + [Cleared(t)];
      assert forall i | 0 <= i <= n :: h[..i] == before[..i];
    }
  }

  predicate Wins(e: Event) { e.Tested? && !e.previous }

  ghost predicate ClearedBetween(h: seq<Event>, i: int, j: int) {
    exists k :: 0 <= i < k < j <= |h| && h[k].Cleared?
  }

  /** At most one winner, exactly: in every interleaving of any number of threads a test-and-set
      wins if and only if every earlier test-and-set has since been cleared. */
  lemma WinsExactly(h: seq<Event>, j: nat)
    requires Legal(h) && j < |h| && h[j].Tested?
    ensures Wins(h[j]) <==> forall i | 0 <= i < j && h[i].Tested? :: ClearedBetween(h, i, j)
  {
    if j > 0 {
      var last := j - 1;
      assert h[..j][last] == h[last];
      if Wins(h[j]) {
        assert h[last].Cleared?;
        assert forall i | 0 <= i < j && h[i].Tested? :: ClearedBetween(h, i, j);
      } else {
        assert h[last].Tested? && !ClearedBetween(h, last, j);
      }
    }
  }

  /** Two winning calls are always separated by a clear. */
  lemma WinnersAreSeparated(h: seq<Event>, i: nat, j: nat)
    requires Legal(h) && i < j < |h| && Wins(h[i]) && Wins(h[j])
    ensures ClearedBetween(h, i, j)
  {
    WinsExactly(h, j);
  }

  // ----- The flag as a lock -----

  /** The threads that won and have not cleared the flag since. */
  function Holders(h: seq<Event>): set<Thread> {
    if h == [] then {} else
    var before, e := Holders(h[..|h| - 1]), h[|h| - 1];
    if Wins(e) then before + {e.thread} else if e.Cleared? then before - {e.thread} else before
  }

  /** Only a holder clears. */
  predicate OnlyHoldersClear(h: seq<Event>) {
    forall i | 0 <= i < |h| :: h[i].Cleared? ==> h[i].thread in Holders(h[..i])
  }

  lemma PrefixIsRun(h: seq<Event>, n: nat)
    requires Legal(h) && OnlyHoldersClear(h) && n <= |h|
    ensures Legal(h[..n]) && OnlyHoldersClear(h[..n])
  {
    forall i | 0 <= i < n ensures h[..n][i] == h[i] && h[..n][..i] == h[..i] {
    }
  }

  /** Mutual exclusion: in every interleaving in which only holders clear, there is never more than
      one holder, and there is one exactly while the flag is set. */
  lemma {:induction false} MutualExclusion(h: seq<Event>)
    requires Legal(h) && OnlyHoldersClear(h)
    ensures |Holders(h)| <= 1
    ensures ValueAfter(h) <==> Holders(h) != {}
    decreases |h|
  {
    if h != [] {
      var n := |h| - 1;
      PrefixIsRun(h, n);
      MutualExclusion(h[..n]);
      var before := Holders(h[..n]);
      if h[n].Cleared? {
        assert before == {h[n].thread} by {
          assert |before - {h[n].thread}| == 0;
        }
      } else if Wins(h[n]) {
        assert before == {};
      }
    }
  }

  /** If another thread may clear, two threads can hold the flag at once. */
  lemma StrayClearBreaksExclusion()
    ensures
      var h := [Tested(1, false), Cleared(3), Tested(2, false)];
      Legal(h) && !OnlyHoldersClear(h) && 1 in Holders(h) && 2 in Holders(h)
  {
    var h := [Tested(1, false), Cleared(3), Tested(2, false)];
    assert h[..2] == [Tested(1, false), Cleared(3)];
    assert h[..2][..1] == [Tested(1, false)] == h[..1];
    assert h[..1][..0] == [] && h[..0] == [];
    assert Holders(h[..0]) == {};
    assert Holders(h[..1]) == {1};
    assert Holders(h[..2]) == {1};
    assert Holders(h) == {1, 2};
    assert h[1].Cleared? && h[1].thread !in Holders(h[..1]);
  }
}
