/** Satellites, their shuffled priorities, and the heap they are put in. */
module SatelliteQueue {

  const MAX_SATELLITE := 100

  datatype Satellite = Satellite(id: int, priority: int)

  datatype Placed = QueueFull | At(satellite: Satellite)

  // ----- the heap -----

  function Parent(i: nat): nat
    requires i > 0
  {
    (i - 1) / 2
  }

  ghost predicate MaxHeap(s: seq<Satellite>) {
    forall i | 0 < i < |s| :: s[i].priority <= s[Parent(i)].priority
  }

  /** A heap but for the edge above `i`, where the newcomer still may be too big. */
  ghost predicate HeapBut(s: seq<Satellite>, i: nat) {
    && (forall j | 0 < j < |s| && j != i :: s[j].priority <= s[Parent(j)].priority)
    && (forall j | 0 < j < |s| && Parent(j) == i && i > 0 :: s[j].priority <= s[Parent(i)].priority)
  }

  ghost predicate Ancestor(a: nat, i: nat)
    decreases i
  {
    i > 0 && (a == Parent(i) || Ancestor(a, Parent(i)))
  }

  lemma {:induction false} AncestorsBeforeAndAbove(s: seq<Satellite>, a: nat, i: nat)
    requires MaxHeap(s) && i < |s| && Ancestor(a, i)
    ensures a < i && s[a].priority >= s[i].priority
    decreases i
  {
    if a != Parent(i) {
      AncestorsBeforeAndAbove(s, a, Parent(i));
    }
  }

  /** The satellite of greatest priority is in front. */
  lemma {:induction false} GreatestInFront(s: seq<Satellite>, i: nat)
    requires MaxHeap(s) && i < |s|
    ensures s[0].priority >= s[i].priority
    decreases i
  {
    if i > 0 {
      GreatestInFront(s, Parent(i));
    }
  }

  /** The two places below `i` in a binary heap. */
  predicate Child(i: nat, j: nat) {
    j == 2 * i + 1 || j == 2 * i + 2
  }

  /** What a heap is, seen from above: nobody has a greater priority than the one above it. */
  lemma HeapByChildren(s: seq<Satellite>)
    ensures MaxHeap(s) <==> forall i: nat, j: nat | j < |s| && Child(i, j) :: s[j].priority <= s[i].priority
  {
    forall j | 0 < j < |s| ensures Child(Parent(j), j) { }
    forall i: nat, j: nat | j < |s| && Child(i, j) ensures Parent(j) == i { }
  }

  /** The ancestors of a child are its parent and the parent's ancestors. */
  lemma AncestorsOfChild(a: nat, i: nat, j: nat)
    requires Child(i, j)
    ensures Ancestor(a, j) <==> a == i || Ancestor(a, i)
    ensures !Ancestor(a, 0)
  {
    assert Parent(j) == i;
  }

  function Swapped<T>(s: seq<T>, i: nat, j: nat): seq<T>
    requires i < |s| && j < |s|
  {
    s[i := s[j]][j := s[i]]
  }

  lemma SwapKeepsElements<T>(s: seq<T>, i: nat, j: nat)
    requires i < |s| && j < |s|
    ensures multiset(Swapped(s, i, j)) == multiset(s)
  {
    var once := s[i := s[j]];
    assert multiset(once) == multiset(s) - multiset{s[i]} + multiset{s[j]};
    assert multiset(once[j := s[i]]) == multiset(once) - multiset{once[j]} + multiset{s[i]};
  }

  lemma SwapWithParent(s: seq<Satellite>, i: nat)
    requires 0 < i < |s| && HeapBut(s, i) && s[i].priority > s[Parent(i)].priority
    ensures HeapBut(Swapped(s, i, Parent(i)), Parent(i))
  {
    var p, s' := Parent(i), Swapped(s, i, Parent(i));
    forall j | 0 < j < |s| && j != p ensures s'[j].priority <= s'[Parent(j)].priority {
      if Parent(j) == p && j != i {
        assert s[j].priority <= s[p].priority;
      }
    }
    if p > 0 {
      assert s[p].priority <= s[Parent(p)].priority;
    }
  }

  lemma AppendedAtEnd(s: seq<Satellite>, x: Satellite)
    requires MaxHeap(s)
    ensures HeapBut(s + [x], |s|) && multiset(s + [x]) == multiset(s) + multiset{x}
  {
  }

  lemma Settled(s: seq<Satellite>, i: nat)
    requires i < |s| && HeapBut(s, i) && (i > 0 ==> s[i].priority <= s[Parent(i)].priority)
    ensures MaxHeap(s)
  {
  }

  class PriorityQueue {
    const cells: array<Satellite>
    var size: nat

    ghost predicate Valid()
      reads this
    {
      size <= cells.Length == MAX_SATELLITE
    }

    ghost function Abs(): seq<Satellite>
      reads this, cells
      requires Valid()
    {
      cells[..size]
    }

    constructor ()
      ensures Valid() && Abs() == [] && fresh(cells)
    {
      cells := new Satellite[MAX_SATELLITE](_ => Satellite(0, 0));
      size := 0;
    }

    method Swap(i: nat, j: nat)
      requires Valid() && i < size && j < size
      modifies cells
      ensures Abs() == Swapped(old(Abs()), i, j)
      ensures multiset(Abs()) == multiset(old(Abs()))
    {
      SwapKeepsElements(Abs(), i, j);
      var temp := cells[i];
      cells[i] := cells[j];
      cells[j] := temp;
      assert Abs() == Swapped(old(Abs()), i, j);
    }

    /** Moves the newcomer at `start` up to its place. */
    method SiftUp(start: nat) returns (i: nat)
      requires Valid() && start < size && HeapBut(Abs(), start)
      modifies cells
      ensures MaxHeap(Abs()) && multiset(Abs()) == multiset(old(Abs()))
      ensures i < size && Abs()[i] == old(Abs()[start])
    {
      i := start;
      while i > 0 && cells[i].priority > cells[Parent(i)].priority
        invariant i < size && HeapBut(Abs(), i) && Abs()[i] == old(Abs()[start])
        invariant multiset(Abs()) == multiset(old(Abs()))
      {
        SwapWithParent(Abs(), i);
        Swap(i, Parent(i));
        i := Parent(i);
      }
      assert i > 0 ==> Abs()[i].priority <= Abs()[Parent(i)].priority;
      Settled(Abs(), i);
    }

    /** Adds a satellite to the heap and returns it; a full queue stays as it is. */
    method Insert(s: Satellite) returns (placed: Placed)
      requires Valid() && MaxHeap(Abs())
      modifies this, cells
      ensures Valid() && MaxHeap(Abs())
      ensures placed == if old(size) >= MAX_SATELLITE then QueueFull else At(s)
      ensures placed.QueueFull? ==> Abs() == old(Abs())
      ensures placed.At? ==> multiset(Abs()) == multiset(old(Abs())) + multiset{s}
    {
      if size >= MAX_SATELLITE {
        return QueueFull;
      }
      AppendedAtEnd(Abs(), s);
      cells[size] := s;
      size := size + 1;
      assert Abs() == old(Abs()) + [s];
      var i := SiftUp(size - 1);
      assert cells[i] == Abs()[i];
      placed := At(cells[i]);
    }

    /** The start-up loop: all satellites, one after the other. */
    method InsertAll(satellites: seq<Satellite>)
      requires Valid() && size == 0 && |satellites| <= MAX_SATELLITE
      modifies this, cells
      ensures Valid() && MaxHeap(Abs()) && multiset(Abs()) == multiset(satellites) && size == |satellites|
    {
      assert satellites[..0] == [];
      for k := 0 to |satellites|
        invariant Valid() && MaxHeap(Abs()) && multiset(Abs()) == multiset(satellites[..k]) && size == k
      {
        assert satellites[..k + 1] == satellites[..k] + [satellites[k]];
        var placed := Insert(satellites[k]);
        SameSize(Abs(), satellites[..k + 1]);
      }
      assert satellites[..|satellites|] == satellites;
    }
  }

  lemma SameSize<T>(a: seq<T>, b: seq<T>)
    requires multiset(a) == multiset(b)
    ensures |a| == |b|
  {
    assert |multiset(a)| == |a| && |multiset(b)| == |b|;
  }

  // ----- the shuffle -----

  /** `rand() % (i + 1)` for the draw with number `i`. */
  function Draw(draws: seq<nat>, i: nat): (j: nat)
    requires i < |draws|
    ensures j <= i
    ensures draws[i] <= i ==> j == draws[i]
  {
    draws[i] % (i + 1)
  }

  /** The draws `draws[k - 1]`, ..., `draws[1]` applied to the first `k` places. */
  function Shuffled(a: seq<int>, k: nat, draws: seq<nat>): (r: seq<int>)
    requires k <= |a| && k <= |draws|
    ensures |r| == |a|
    decreases k
  {
    if k <= 1 then a else Shuffled(Swapped(a, k - 1, Draw(draws, k - 1)), k - 1, draws)
  }

  function UpTo(n: nat): seq<int> {
    seq(n, i => i + 1)
  }

  lemma {:induction false} UpToIs(n: nat, x: int)
    ensures multiset(UpTo(n))[x] == if 1 <= x <= n then 1 else 0
  {
    if n > 0 {
      UpToIs(n - 1, x);
      assert UpTo(n) == UpTo(n - 1) + [n];
    }
  }

  lemma {:induction false} ShuffleKeepsElements(a: seq<int>, k: nat, draws: seq<nat>)
    requires k <= |a| && k <= |draws|
    ensures multiset(Shuffled(a, k, draws)) == multiset(a)
    decreases k
  {
    if k > 1 {
      SwapKeepsElements(a, k - 1, Draw(draws, k - 1));
      ShuffleKeepsElements(Swapped(a, k - 1, Draw(draws, k - 1)), k - 1, draws);
    }
  }

  /** Priorities 1 to n in an order that depends on the draws; whatever is drawn, none is lost or doubled. */
  method MakePriorities(n: nat, draws: seq<nat>) returns (priorities: array<int>)
    requires n <= |draws|
    ensures fresh(priorities) && priorities[..] == Shuffled(UpTo(n), n, draws)
    ensures forall x :: multiset(priorities[..])[x] == if 1 <= x <= n then 1 else 0
  {
    forall x ensures multiset(UpTo(n))[x] == if 1 <= x <= n then 1 else 0 { UpToIs(n, x); }
    priorities := new int[n](i => i + 1);
    assert priorities[..] == UpTo(n);
    ShuffleKeepsElements(UpTo(n), n, draws);
    var i := n - 1;
    while i > 0
      invariant -1 <= i < n
      invariant Shuffled(UpTo(n), n, draws) == Shuffled(priorities[..], i + 1, draws)
      decreases i
    {
      ghost var before := priorities[..];
      var j := Draw(draws, i);
      var tmp := priorities[i];
      priorities[i] := priorities[j];
      priorities[j] := tmp;
      assert priorities[..] == Swapped(before, i, j);
      i := i - 1;
    }
  }

  lemma TakeAway(p: seq<int>, a: seq<int>, k: nat)
    requires k <= |p| == |a| && p[k..] == a[k..] && multiset(p) == multiset(a)
    ensures multiset(p[..k]) == multiset(a[..k])
  {
    assert p == p[..k] + p[k..] && a == a[..k] + a[k..];
    assert multiset(p[..k]) == multiset(p) - multiset(p[k..]);
    assert multiset(a[..k]) == multiset(a) - multiset(a[k..]);
  }

  lemma FindAmong(p: seq<int>, a: seq<int>, k: nat) returns (j: nat)
    requires 0 < k <= |a| == |p| && p[k..] == a[k..] && multiset(p) == multiset(a)
    ensures j < k && a[j] == p[k - 1]
  {
    TakeAway(p, a, k);
    assert p[..k][k - 1] in multiset(p[..k]);
    assert p[k - 1] in a[..k];
    j :| 0 <= j < k && a[j] == p[k - 1];
  }

  /** Some draw brings the wanted number to place `k - 1` and leaves the places behind it alone. */
  lemma DrawFor(a: seq<int>, k: nat, p: seq<int>) returns (j: nat)
    requires 0 < k <= |a| == |p| && p[k..] == a[k..] && multiset(p) == multiset(a)
    ensures j < k && p[k - 1..] == Swapped(a, k - 1, j)[k - 1..] && multiset(p) == multiset(Swapped(a, k - 1, j))
  {
    j := FindAmong(p, a, k);
    SwapKeepsElements(a, k - 1, j);
    forall m | k - 1 <= m < |p| ensures p[m] == Swapped(a, k - 1, j)[m] {
      if m >= k { assert p[k..][m - k] == a[k..][m - k]; }
    }
  }

  lemma OneMoreDraw(a: seq<int>, k: nat, j: nat, earlier: seq<nat>)
    requires 0 < k <= |a| && j < k && |earlier| == k - 1
    ensures Shuffled(a, k, earlier + [j]) == Shuffled(Swapped(a, k - 1, j), k - 1, earlier)
  {
    var draws := earlier + [j];
    assert Draw(draws, k - 1) == j;
    DrawsBelow(Swapped(a, k - 1, j), k - 1, earlier, draws);
    if k == 1 { assert Swapped(a, 0, 0) == a; }
  }

  /** The shuffle can produce every order: for each arrangement of the numbers there are draws that lead to it. */
  lemma {:induction false} EveryOrderPossible(a: seq<int>, k: nat, p: seq<int>)
    requires k <= |a| == |p| && p[k..] == a[k..] && multiset(p) == multiset(a)
    ensures exists draws: seq<nat> :: |draws| == k && Shuffled(a, k, draws) == p
    decreases k
  {
    if k == 0 {
      assert p[0..] == p && a[0..] == a;
      var none: seq<nat> := [];
      assert |none| == 0 && Shuffled(a, 0, none) == p;
    } else {
      var j := DrawFor(a, k, p);
      EveryOrderPossible(Swapped(a, k - 1, j), k - 1, p);
      var earlier: seq<nat> :| |earlier| == k - 1 && Shuffled(Swapped(a, k - 1, j), k - 1, earlier) == p;
      OneMoreDraw(a, k, j, earlier);
      assert |earlier + [j]| == k;
    }
  }

  lemma {:induction false} DrawsBelow(a: seq<int>, k: nat, d: seq<nat>, e: seq<nat>)
    requires k <= |a| && k <= |d| && k <= |e| && d[..k] == e[..k]
    ensures Shuffled(a, k, d) == Shuffled(a, k, e)
    decreases k
  {
    if k > 1 {
      assert d[..k][k - 1] == e[..k][k - 1];
      assert d[..k - 1] == d[..k][..k - 1] && e[..k - 1] == e[..k][..k - 1];
      DrawsBelow(Swapped(a, k - 1, Draw(d, k - 1)), k - 1, d, e);
    }
  }
}
