/** The ordering of the job board: each job carries an integer `order`, the
    server sorts by it, and `reorderJob` moves one job and renumbers every job
    to its 1-based position (talent-flow/src/lib/mockApi.js, lines 126-136). */
module JobOrder {
  import opened Domain
  import opened Seqs

  function OrderOf(j: Job): int {
    j.order
  }

  /** The order values of the jobs, position by position. */
  function OrdersOf(js: seq<Job>): seq<int> {
    seq(|js|, i requires 0 <= i < |js| => js[i].order)
  }

  lemma OrdersOfIsMap(js: seq<Job>)
    ensures OrdersOf(js) == Map(js, OrderOf)
  {
    assert forall i :: 0 <= i < |js| ==> Map(js, OrderOf)[i] == OrderOf(js[i]) == js[i].order;
  }

  /** [1, 2, ..., n]. */
  function Iota(n: nat): seq<int> {
    seq(n, i requires 0 <= i < n => i + 1)
  }

  /** The order values are a permutation of 1..N: no gap, no duplicate. */
  predicate Contiguous(js: seq<Job>) {
    multiset(OrdersOf(js)) == multiset(Iota(|js|))
  }

  predicate Sorted(xs: seq<int>) {
    forall i, j :: 0 <= i < j < |xs| ==> xs[i] <= xs[j]
  }

  predicate SortedByOrder(js: seq<Job>) {
    forall i, j :: 0 <= i < j < |js| ==> js[i].order <= js[j].order
  }

  /** Inserts x before the first job whose order is not smaller, so that x
      precedes the jobs of equal order that came after it in the input. */
  function InsertByOrder(x: Job, s: seq<Job>): (r: seq<Job>)
    requires SortedByOrder(s)
    ensures |r| == |s| + 1
    ensures SortedByOrder(r)
    ensures multiset(r) == multiset{x} + multiset(s)
    ensures r[0] == x || (|s| > 0 && r[0] == s[0])
    decreases |s|
  {
    if |s| == 0 || x.order <= s[0].order then [x] + s
    else
      var rest := InsertByOrder(x, s[1..]);
      assert s == [s[0]] + s[1..];
      assert s[0].order <= rest[0].order;
      [s[0]] + rest
  }

  /** `[...jobs].sort((a, b) => a.order - b.order)`: a stable sort by order
      returning a permutation of its input. */
  function SortByOrder(js: seq<Job>): (r: seq<Job>)
    ensures |r| == |js|
    ensures SortedByOrder(r)
    ensures multiset(r) == multiset(js)
    decreases |js|
  {
    if |js| == 0 then []
    else
      assert js == [js[0]] + js[1..];
      InsertByOrder(js[0], SortByOrder(js[1..]))
  }

  /** Jobs already in order are left where they are. */
  lemma {:induction false} SortSortedIdentity(s: seq<Job>)
    requires SortedByOrder(s)
    ensures SortByOrder(s) == s
    decreases |s|
  {
    if |s| > 0 {
      SortSortedIdentity(s[1..]);
      assert [s[0]] + s[1..] == s;
    }
  }

  /** Two sorted integer sequences holding the same values start with the
      same, smallest, value. */
  lemma SortedSameHead(a: seq<int>, b: seq<int>)
    requires Sorted(a) && Sorted(b)
    requires multiset(a) == multiset(b)
    requires |a| > 0 && |b| > 0
    ensures a[0] == b[0]
  {
    assert a[0] in multiset(b) && b[0] in multiset(a);
    var i :| 0 <= i < |a| && a[i] == b[0];
    var k :| 0 <= k < |b| && b[k] == a[0];
    assert a[0] <= a[i];
    assert b[0] <= b[k];
  }

  /** Dropping the first value keeps a sequence sorted and takes one copy
      of that value out of the multiset. */
  lemma SortedTail(a: seq<int>)
    requires Sorted(a) && |a| > 0
    ensures Sorted(a[1..])
    ensures multiset(a[1..]) == multiset(a) - multiset{a[0]}
  {
    assert a == [a[0]] + a[1..];
  }

  /** Two sorted integer sequences holding the same values are equal. */
  lemma {:induction false} SortedUnique(a: seq<int>, b: seq<int>)
    requires Sorted(a) && Sorted(b)
    requires multiset(a) == multiset(b)
    ensures a == b
    decreases |a|
  {
    assert |a| == |multiset(a)| == |multiset(b)| == |b|;
    if |a| > 0 {
      SortedSameHead(a, b);
      SortedTail(a);
      SortedTail(b);
      SortedUnique(a[1..], b[1..]);
      assert a == [a[0]] + a[1..];
      assert b == [b[0]] + b[1..];
    }
  }

  lemma OrdersPermutation(a: seq<Job>, b: seq<Job>)
    requires multiset(a) == multiset(b)
    ensures multiset(OrdersOf(a)) == multiset(OrdersOf(b))
  {
    MapPermutation(a, b, OrderOf);
    OrdersOfIsMap(a);
    OrdersOfIsMap(b);
  }

  lemma SortedOrders(s: seq<Job>)
    requires SortedByOrder(s)
    ensures Sorted(OrdersOf(s))
  {
  }

  lemma IotaSorted(n: nat)
    ensures Sorted(Iota(n))
  {
  }

  /** With contiguous orders, the job holding order k sits at sorted
      position k - 1; this is what lets a client name a position by an
      order value. */
  lemma ContiguousSortedPositions(js: seq<Job>)
    requires Contiguous(js)
    ensures OrdersOf(SortByOrder(js)) == Iota(|js|)
  {
    var s := SortByOrder(js);
    OrdersPermutation(s, js);
    SortedOrders(s);
    IotaSorted(|js|);
    SortedUnique(OrdersOf(s), Iota(|js|));
  }

  /** How JavaScript's `splice` and `slice` read an index on an array of
      length len: a negative index counts back from the end, and the result
      is clamped to 0..len. */
  function RelativeIndex(start: int, len: nat): (r: nat)
    ensures r <= len
    ensures 0 < len && start < len ==> r < len
  {
    if start < 0 then (if len + start < 0 then 0 else len + start)
    else if start > len then len
    else start
  }

  /** `s.splice(k, 1)` on the array, for an index k in range. */
  function RemoveAt<T>(s: seq<T>, k: nat): seq<T>
    requires k < |s|
  {
    s[..k] + s[k + 1..]
  }

  /** `s.splice(k, 0, x)` on the array, for an index k in 0..|s|. */
  function InsertAt<T>(s: seq<T>, k: nat, x: T): seq<T>
    requires k <= |s|
  {
    s[..k] + [x] + s[k..]
  }

  lemma RemoveInserted<T>(s: seq<T>, k: nat, x: T)
    requires k <= |s|
    ensures RemoveAt(InsertAt(s, k, x), k) == s
  {
    var m := InsertAt(s, k, x);
    assert m[..k] == s[..k];
    assert m[k + 1..] == s[k..];
  }

  /** `items.map((job, index) => ({ ...job, order: index + 1 }))`. */
  function Renumber(s: seq<Job>): seq<Job> {
    seq(|s|, i requires 0 <= i < |s| => s[i].(order := i + 1))
  }

  /** A job with its position field erased: what must survive a reorder. */
  function Strip(j: Job): Job {
    j.(order := 0)
  }

  function Stripped(js: seq<Job>): seq<Job> {
    seq(|js|, i requires 0 <= i < |js| => Strip(js[i]))
  }

  /** Erasing orders maps a permutation to a permutation. */
  lemma StrippedPermutation(a: seq<Job>, b: seq<Job>)
    requires multiset(a) == multiset(b)
    ensures multiset(Stripped(a)) == multiset(Stripped(b))
  {
    MapPermutation(a, b, Strip);
    assert Stripped(a) == Map(a, Strip);
    assert Stripped(b) == Map(b, Strip);
  }

  lemma StrippedRenumber(m: seq<Job>)
    ensures Stripped(Renumber(m)) == Stripped(m)
  {
    var r := Renumber(m);
    assert forall i :: 0 <= i < |m| ==> Stripped(r)[i] == Strip(r[i]) == Strip(m[i]);
  }

  /** Taking x out of s at f and putting it back anywhere permutes s. */
  lemma MovePermutes<T>(s: seq<T>, f: nat, t: nat)
    requires f < |s| && t < |s|
    ensures multiset(InsertAt(RemoveAt(s, f), t, s[f])) == multiset(s)
  {
    var rest := RemoveAt(s, f);
    var m := InsertAt(rest, t, s[f]);
    assert rest == s[..f] + s[f + 1..];
    assert m == rest[..t] + [s[f]] + rest[t..];
    assert s == s[..f] + [s[f]] + s[f + 1..];
    assert multiset(s) == multiset(s[..f]) + multiset{s[f]} + multiset(s[f + 1..]);
    assert multiset(rest) == multiset(s[..f]) + multiset(s[f + 1..]);
    assert rest == rest[..t] + rest[t..];
    assert multiset(rest) == multiset(rest[..t]) + multiset(rest[t..]);
    assert multiset(m) == multiset(rest[..t]) + multiset{s[f]} + multiset(rest[t..]);
    assert multiset(m) == multiset(rest) + multiset{s[f]};
  }

  lemma StrippedRemoveAt(s: seq<Job>, k: nat)
    requires k < |s|
    ensures Stripped(RemoveAt(s, k)) == RemoveAt(Stripped(s), k)
  {
  }

  /** The two splices of `reorderJob`: take the job at f out, then insert it
      at t of the shortened list. */
  function Move<T>(s: seq<T>, f: nat, t: nat): seq<T>
    requires f < |s| && t < |s|
  {
    InsertAt(RemoveAt(s, f), t, s[f])
  }

  /** Renumbering the moved list: positions 1..N, the moved job at t, the
      others in their relative order, and the same jobs apart from `order`. */
  lemma RenumberedMove(s: seq<Job>, f: nat, t: nat)
    requires f < |s| && t < |s|
    ensures var r := Renumber(Move(s, f, t));
      && |r| == |s|
      && OrdersOf(r) == Iota(|s|)
      && Strip(r[t]) == Strip(s[f])
      && RemoveAt(Stripped(r), t) == RemoveAt(Stripped(s), f)
      && multiset(Stripped(r)) == multiset(Stripped(s))
  {
    var rest := RemoveAt(s, f);
    var m := Move(s, f, t);
    var r := Renumber(m);
    assert forall i :: 0 <= i < |r| ==> OrdersOf(r)[i] == r[i].order == i + 1;
    StrippedRenumber(m);
    RemoveInserted(rest, t, s[f]);
    StrippedRemoveAt(m, t);
    StrippedRemoveAt(s, f);
    assert m[t] == s[f];
    assert Strip(r[t]) == Stripped(r)[t] == Stripped(m)[t];
    MovePermutes(s, f, t);
    StrippedPermutation(m, s);
  }

  /** The server side of `reorderJob({ fromOrder, toOrder })`: sort by order,
      take out the job at splice position fromOrder - 1, put it back at splice
      position toOrder - 1, and renumber. The result numbers the jobs 1..N;
      the moved job lands at position t; the other jobs keep their relative
      order; and apart from `order` the jobs are a permutation of the input. */
  function Reorder(jobs: seq<Job>, fromOrder: int, toOrder: int): (r: seq<Job>)
    requires 0 < |jobs| && fromOrder <= |jobs|
    ensures |r| == |jobs|
    ensures OrdersOf(r) == Iota(|jobs|)
    ensures var s, f, t := SortByOrder(jobs), RelativeIndex(fromOrder - 1, |jobs|), RelativeIndex(toOrder - 1, |jobs| - 1);
      && Strip(r[t]) == Strip(s[f])
      && RemoveAt(Stripped(r), t) == RemoveAt(Stripped(s), f)
    ensures multiset(Stripped(r)) == multiset(Stripped(jobs))
  {
    var s := SortByOrder(jobs);
    var f := RelativeIndex(fromOrder - 1, |s|);
    var t := RelativeIndex(toOrder - 1, |s| - 1);
    RenumberedMove(s, f, t);
    StrippedPermutation(s, jobs);
    Renumber(Move(s, f, t))
  }

  /** Any reorder leaves the orders contiguous, whatever they were before. */
  lemma ReorderIsContiguous(jobs: seq<Job>, fromOrder: int, toOrder: int)
    requires 0 < |jobs| && fromOrder <= |jobs|
    ensures Contiguous(Reorder(jobs, fromOrder, toOrder))
  {
  }

  /** Jobs that agree apart from `order` and on `order` are equal. */
  lemma SameUpToOrder(x: Job, y: Job)
    requires Strip(x) == Strip(y)
    ensures x == y.(order := x.order)
  {
  }

  /** On contiguous orders with both positions in 1..N, the job that held
      order fromOrder ends up holding order toOrder, and the other jobs keep
      their relative order. */
  lemma ReorderByOrderValue(jobs: seq<Job>, fromOrder: int, toOrder: int)
    requires Contiguous(jobs)
    requires 1 <= fromOrder <= |jobs| && 1 <= toOrder <= |jobs|
    ensures var s, r := SortByOrder(jobs), Reorder(jobs, fromOrder, toOrder);
      && s[fromOrder - 1] in jobs
      && s[fromOrder - 1].order == fromOrder
      && r[toOrder - 1] == s[fromOrder - 1].(order := toOrder)
      && RemoveAt(Stripped(r), toOrder - 1) == RemoveAt(Stripped(s), fromOrder - 1)
  {
    var s := SortByOrder(jobs);
    var r := Reorder(jobs, fromOrder, toOrder);
    var x := s[fromOrder - 1];
    ContiguousSortedPositions(jobs);
    assert OrdersOf(s)[fromOrder - 1] == fromOrder;
    assert x in multiset(s);
    assert x in multiset(jobs);
    assert RelativeIndex(fromOrder - 1, |jobs|) == fromOrder - 1;
    assert RelativeIndex(toOrder - 1, |jobs| - 1) == toOrder - 1;
    assert OrdersOf(r)[toOrder - 1] == toOrder;
    SameUpToOrder(r[toOrder - 1], x);
  }

  /** On jobs already sorted by order, with both positions in 1..N, a
      reorder is exactly the two splices followed by the renumbering. */
  lemma ReorderOfSorted(jobs: seq<Job>, fromOrder: int, toOrder: int)
    requires SortedByOrder(jobs)
    requires 1 <= fromOrder <= |jobs| && 1 <= toOrder <= |jobs|
    ensures Reorder(jobs, fromOrder, toOrder) == Renumber(Move(jobs, fromOrder - 1, toOrder - 1))
  {
    SortSortedIdentity(jobs);
    assert RelativeIndex(fromOrder - 1, |jobs|) == fromOrder - 1;
    assert RelativeIndex(toOrder - 1, |jobs| - 1) == toOrder - 1;
  }

  /** Moving the first of three jobs in order 1, 2, 3 to order 3 gives it
      order 3 and shifts the other two to orders 1 and 2. */
  lemma ReorderFirstToLast(jobs: seq<Job>)
    requires |jobs| == 3
    requires jobs[0].order == 1 && jobs[1].order == 2 && jobs[2].order == 3
    ensures Reorder(jobs, 1, 3) == [jobs[1].(order := 1), jobs[2].(order := 2), jobs[0].(order := 3)]
  {
    ReorderOfSorted(jobs, 1, 3);
    var m := Move(jobs, 0, 2);
    assert m == [jobs[1], jobs[2], jobs[0]] by {
      assert RemoveAt(jobs, 0) == [jobs[1], jobs[2]];
    }
    var r := Renumber(m);
    assert r[0] == jobs[1].(order := 1) && r[1] == jobs[2].(order := 2) && r[2] == jobs[0].(order := 3);
  }
}
