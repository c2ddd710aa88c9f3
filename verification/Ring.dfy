/** A ring of cells as a queue: the `count` cells from `start` on, wrapping round. */
module Ring {

  /** The cell `k` places after `start`. */
  function At(start: nat, k: nat, n: nat): (i: nat)
    requires start < n && k <= n
    ensures i == if start + k < n then start + k else start + k - n
    ensures i < n
  {
    (start + k) % n
  }

  function Contents<T>(cells: seq<T>, start: nat, count: nat): (s: seq<T>)
    requires start < |cells| && count <= |cells|
    ensures |s| == count
    ensures forall k | 0 <= k < count :: s[k] == cells[At(start, k, |cells|)]
  {
    seq(count, k requires 0 <= k < count => cells[At(start, k, |cells|)])
  }

  /** Writing behind the last cell in use appends. */
  lemma Push<T>(cells: seq<T>, start: nat, count: nat, x: T)
    requires start < |cells| && count < |cells|
    ensures var end := At(start, count, |cells|);
            && Contents(cells[end := x], start, count + 1) == Contents(cells, start, count) + [x]
            && At(end, 1, |cells|) == At(start, count + 1, |cells|)
  {
  }

  /** Moving `start` on by one removes the first element and leaves the end where it was. */
  lemma Pop<T>(cells: seq<T>, start: nat, count: nat)
    requires start < |cells| && 0 < count <= |cells|
    ensures var next := At(start, 1, |cells|);
            && [cells[start]] + Contents(cells, next, count - 1) == Contents(cells, start, count)
            && At(next, count - 1, |cells|) == At(start, count, |cells|)
  {
    var next := At(start, 1, |cells|);
    var popped := [cells[start]] + Contents(cells, next, count - 1);
    forall k | 0 <= k < count ensures popped[k] == Contents(cells, start, count)[k] {
      if k > 0 { assert At(next, k - 1, |cells|) == At(start, k, |cells|); }
    }
  }

  lemma Rest<T>(x: T, rest: seq<T>, whole: seq<T>)
    requires [x] + rest == whole
    ensures whole[0] == x && whole[1..] == rest
  {
  }

  lemma Shift<T>(done: seq<T>, x: T, rest: seq<T>, whole: seq<T>)
    requires [x] + rest == whole
    ensures (done + [x]) + rest == done + whole
  {
  }
}
