/**
 * Ticket numbers of one raffle and the list operations the components apply
 * to them: the range 1..total, the numbers still free, the lowest-first
 * allocation, filtering numbers out of a list, and the duplicate-free union
 * written `[...new Set([...a, ...b])]` in the source.
 */
module NumberSets {

  function Elems(s: seq<int>): set<int> { set x | x in s }

  predicate NoDups(s: seq<int>) { forall i, j :: 0 <= i < j < |s| ==> s[i] != s[j] }

  predicate Ascending(s: seq<int>) { forall i, j :: 0 <= i < j < |s| ==> s[i] < s[j] }

  predicate InRange(s: seq<int>, total: int) { forall x :: x in s ==> 1 <= x <= total }

  /**
   * The three number lists of a raffle form a partition of part of 1..total:
   * no list repeats a number, every number is in range, and no number is in
   * two lists.
   */
  predicate Partitioned(total: int, sold: seq<int>, unavailable: seq<int>, pending: seq<int>)
  {
    && NoDups(sold) && NoDups(unavailable) && NoDups(pending)
    && InRange(sold, total) && InRange(unavailable, total) && InRange(pending, total)
    && Elems(sold) !! Elems(unavailable)
    && Elems(sold) !! Elems(pending)
    && Elems(unavailable) !! Elems(pending)
  }

  /** `Array.from({ length: total }, (_, i) => i + 1)`; empty when `total` is not positive. */
  function Range(total: int): (r: seq<int>)
    ensures |r| == if total > 0 then total else 0
    ensures forall x :: x in r <==> 1 <= x <= total
    ensures Ascending(r)
    decreases total
  {
    if total <= 0 then []
    else
      var init := Range(total - 1);
      assert forall i :: 0 <= i < |init| ==> init[i] in init;
      init + [total]
  }

  /** `s.filter(n => !out.has(n))`, keeping the order of `s`. */
  function Exclude(s: seq<int>, out: set<int>): (r: seq<int>)
    ensures forall x :: x in r <==> x in s && x !in out
    ensures |r| <= |s|
  {
    if s == [] then []
    else
      var rest := Exclude(s[1..], out);
      assert forall x :: x in s <==> x == s[0] || x in s[1..];
      if s[0] in out then rest else [s[0]] + rest
  }

  /** Every number after the head of a list is in its tail. */
  lemma HeadAndTail(s: seq<int>)
    requires s != []
    ensures forall x :: x in s[1..] ==> exists j :: 1 <= j < |s| && s[j] == x
  {
    forall x | x in s[1..] ensures exists j :: 1 <= j < |s| && s[j] == x {
      var k :| 0 <= k < |s| - 1 && s[1..][k] == x;
      assert s[k + 1] == x;
    }
  }

  lemma {:induction false} ExcludeAscending(s: seq<int>, out: set<int>)
    requires Ascending(s)
    ensures Ascending(Exclude(s, out))
  {
    if s != [] {
      ExcludeAscending(s[1..], out);
      var rest := Exclude(s[1..], out);
      HeadAndTail(s);
      forall j | 0 <= j < |rest| ensures s[0] < rest[j] {
        assert rest[j] in rest;
        var k :| 1 <= k < |s| && s[k] == rest[j];
      }
    }
  }

  lemma {:induction false} ExcludeNoDups(s: seq<int>, out: set<int>)
    requires NoDups(s)
    ensures NoDups(Exclude(s, out))
  {
    if s != [] {
      ExcludeNoDups(s[1..], out);
      var rest := Exclude(s[1..], out);
      HeadAndTail(s);
      assert s[0] !in s[1..];
      assert forall j :: 0 <= j < |rest| ==> rest[j] in rest && s[0] != rest[j];
    }
  }

  /** Every number in any of the three lists (the source's `numerosOcupados`). */
  function Occupied(sold: seq<int>, unavailable: seq<int>, pending: seq<int>): set<int>
  {
    Elems(sold) + Elems(unavailable) + Elems(pending)
  }

  /** The numbers of 1..total in none of the three lists, ascending (`numerosDisponibles`). */
  function Available(total: int, sold: seq<int>, unavailable: seq<int>, pending: seq<int>): (r: seq<int>)
    ensures forall x :: x in r <==> 1 <= x <= total && x !in sold && x !in unavailable && x !in pending
    ensures Ascending(r)
  {
    ExcludeAscending(Range(total), Occupied(sold, unavailable, pending));
    Exclude(Range(total), Occupied(sold, unavailable, pending))
  }

  /** `s.slice(0, n)` for a non-negative `n`. */
  function Take(s: seq<int>, n: nat): (r: seq<int>)
    ensures r <= s
    ensures |r| == if n < |s| then n else |s|
  {
    s[..if n < |s| then n else |s|]
  }

  lemma AscendingPrefixBelowRest(s: seq<int>, k: nat)
    requires Ascending(s) && k <= |s|
    ensures forall x, y :: x in s[..k] && y in s && y !in s[..k] ==> x < y
  {
    assert forall m :: 0 <= m < k ==> s[m] == s[..k][m] && s[..k][m] in s[..k];
    forall x, y | x in s[..k] && y in s && y !in s[..k] ensures x < y {
      var i :| 0 <= i < k && s[..k][i] == x;
      var j :| 0 <= j < |s| && s[j] == y;
      assert k <= j;
    }
  }

  /**
   * The lowest-first allocation of `quantity` numbers: the first `quantity`
   * available numbers, or all of them when fewer are free.
   */
  function Allocate(total: int, sold: seq<int>, unavailable: seq<int>, pending: seq<int>, quantity: nat): (r: seq<int>)
    ensures forall x :: x in r ==> 1 <= x <= total && x !in sold && x !in unavailable && x !in pending
    ensures Ascending(r) && NoDups(r)
    ensures r <= Available(total, sold, unavailable, pending)
    ensures |r| == if quantity < |Available(total, sold, unavailable, pending)| then quantity
                   else |Available(total, sold, unavailable, pending)|
    ensures forall x, y :: x in r && y in Available(total, sold, unavailable, pending) && y !in r ==> x < y
  {
    var avail := Available(total, sold, unavailable, pending);
    var r := Take(avail, quantity);
    assert forall m :: 0 <= m < |r| ==> r[m] == avail[m] && avail[m] in avail;
    AscendingPrefixBelowRest(avail, |r|);
    r
  }

  /** `[...new Set(s)]`: the first occurrence of each number, in order of appearance. */
  function Dedupe(s: seq<int>): (r: seq<int>)
    ensures NoDups(r)
    ensures Elems(r) == Elems(s)
  {
    if s == [] then []
    else
      var d := Dedupe(s[..|s| - 1]);
      assert s == s[..|s| - 1] + [s[|s| - 1]];
      assert Elems(s) == Elems(s[..|s| - 1]) + {s[|s| - 1]};
      assert Elems(d + [s[|s| - 1]]) == Elems(d) + {s[|s| - 1]};
      if s[|s| - 1] in d then d else d + [s[|s| - 1]]
  }

  /** `[...new Set([...a, ...b])]`. */
  function Union(a: seq<int>, b: seq<int>): seq<int>
  {
    Dedupe(a + b)
  }

  lemma NoDupsConcat(a: seq<int>, b: seq<int>)
    requires NoDups(a) && NoDups(b) && Elems(a) !! Elems(b)
    ensures NoDups(a + b)
  {
    forall i, j | 0 <= i < j < |a + b| ensures (a + b)[i] != (a + b)[j] {
      if i < |a| && j >= |a| {
        assert (a + b)[i] in Elems(a) && (a + b)[j] in Elems(b);
      }
    }
  }

  lemma {:induction false} DedupeOfNoDups(s: seq<int>)
    requires NoDups(s)
    ensures Dedupe(s) == s
  {
    if s != [] {
      var init := s[..|s| - 1];
      assert NoDups(init);
      DedupeOfNoDups(init);
      assert s == init + [s[|s| - 1]];
      assert s[|s| - 1] !in init;
    }
  }

  /** Adding numbers already present to a duplicate-free list leaves it as it is. */
  lemma {:induction false} DedupeAbsorbs(d: seq<int>, b: seq<int>)
    requires NoDups(d) && Elems(b) <= Elems(d)
    ensures Dedupe(d + b) == d
  {
    if b == [] {
      assert d + b == d;
      DedupeOfNoDups(d);
    } else {
      var init := b[..|b| - 1];
      assert Elems(init) <= Elems(b);
      DedupeAbsorbs(d, init);
      assert (d + b)[..|d + b| - 1] == d + init;
      assert b[|b| - 1] in Elems(b);
    }
  }

  /** The union keeps an already duplicate-free first list as its prefix, in its order. */
  lemma {:induction false} UnionKeepsPrefix(a: seq<int>, b: seq<int>)
    requires NoDups(a)
    ensures a <= Union(a, b)
  {
    if b == [] {
      assert a + b == a;
      DedupeOfNoDups(a);
    } else {
      var init := b[..|b| - 1];
      UnionKeepsPrefix(a, init);
      assert (a + b)[..|a + b| - 1] == a + init;
    }
  }

  /** What the union holds: both lists' numbers, once each, the first list first. */
  lemma UnionSpec(a: seq<int>, b: seq<int>)
    requires NoDups(a)
    ensures NoDups(Union(a, b))
    ensures Elems(Union(a, b)) == Elems(a) + Elems(b)
    ensures a <= Union(a, b)
  {
    UnionKeepsPrefix(a, b);
    assert Elems(a + b) == Elems(a) + Elems(b);
  }

  /** Moving the same numbers from pending to sold a second time changes nothing. */
  lemma MoveTwice(sold: seq<int>, pending: seq<int>, moved: seq<int>)
    ensures Union(Union(sold, moved), moved) == Union(sold, moved)
    ensures Exclude(Exclude(pending, Elems(moved)), Elems(moved)) == Exclude(pending, Elems(moved))
  {
    var u := Union(sold, moved);
    assert Elems(sold + moved) == Elems(sold) + Elems(moved);
    DedupeAbsorbs(u, moved);
    ExcludeTwice(pending, Elems(moved));
  }

  lemma {:induction false} ExcludeTwice(s: seq<int>, out: set<int>)
    ensures Exclude(Exclude(s, out), out) == Exclude(s, out)
  {
    if s != [] {
      ExcludeTwice(s[1..], out);
      if s[0] !in out {
        var once := Exclude(s, out);
        assert once[1..] == Exclude(s[1..], out);
      }
    }
  }

  lemma {:induction false} NoDupsCard(s: seq<int>)
    requires NoDups(s)
    ensures |Elems(s)| == |s|
  {
    if s != [] {
      var rest := s[1..];
      assert NoDups(rest);
      NoDupsCard(rest);
      assert Elems(s) == {s[0]} + Elems(rest);
      assert s[0] !in rest;
    }
  }

  lemma {:induction false} ExcludeCount(s: seq<int>, out: set<int>)
    requires NoDups(s)
    ensures |Exclude(s, out)| == |s| - |Elems(s) * out|
  {
    if s != [] {
      var rest := s[1..];
      assert NoDups(rest);
      ExcludeCount(rest, out);
      assert s[0] !in rest;
      if s[0] in out {
        assert Elems(s) * out == {s[0]} + Elems(rest) * out;
      } else {
        assert Elems(s) * out == Elems(rest) * out;
      }
    }
  }

  /**
   * The source's count `total - |sold| - |unavailable| - |pending|` is the
   * number of available numbers whenever the lists are partitioned and the
   * total is positive; for a non-positive total nothing is available.
   */
  lemma AvailableSize(total: int, sold: seq<int>, unavailable: seq<int>, pending: seq<int>)
    requires Partitioned(total, sold, unavailable, pending)
    ensures |Available(total, sold, unavailable, pending)|
            == if total > 0 then total - |sold| - |unavailable| - |pending| else 0
  {
    var range := Range(total);
    var occupied := Occupied(sold, unavailable, pending);
    assert NoDups(range);
    ExcludeCount(range, occupied);
    assert Elems(range) * occupied == occupied;
    NoDupsCard(sold);
    NoDupsCard(unavailable);
    NoDupsCard(pending);
    assert |Elems(sold) + Elems(unavailable)| == |Elems(sold)| + |Elems(unavailable)|;
  }

  /** Appending a fresh allocation to the pending list keeps the partition. */
  lemma ReserveKeepsPartition(total: int, sold: seq<int>, unavailable: seq<int>, pending: seq<int>, quantity: nat)
    requires Partitioned(total, sold, unavailable, pending)
    ensures Partitioned(total, sold, unavailable, pending + Allocate(total, sold, unavailable, pending, quantity))
  {
    var a := Allocate(total, sold, unavailable, pending, quantity);
    NoDupsConcat(pending, a);
    assert Elems(pending + a) == Elems(pending) + Elems(a);
  }

  /** Moving pending numbers to sold keeps the partition. */
  lemma ConfirmKeepsPartition(total: int, sold: seq<int>, unavailable: seq<int>, pending: seq<int>, moved: seq<int>)
    requires Partitioned(total, sold, unavailable, pending)
    requires Elems(moved) <= Elems(pending)
    ensures Partitioned(total, Union(sold, moved), unavailable, Exclude(pending, Elems(moved)))
  {
    UnionSpec(sold, moved);
    ExcludeNoDups(pending, Elems(moved));
    var u := Union(sold, moved);
    assert forall x :: x in u ==> x in Elems(u);
    assert forall x :: x in moved ==> x in Elems(moved);
  }

  /** Dropping numbers from the pending list keeps the partition. */
  lemma RejectKeepsPartition(total: int, sold: seq<int>, unavailable: seq<int>, pending: seq<int>, released: seq<int>)
    requires Partitioned(total, sold, unavailable, pending)
    ensures Partitioned(total, sold, unavailable, Exclude(pending, Elems(released)))
  {
    ExcludeNoDups(pending, Elems(released));
  }

  /** After a rejection, every released number in range that is neither sold nor unavailable is available again. */
  lemma RejectReleases(total: int, sold: seq<int>, unavailable: seq<int>, pending: seq<int>, released: seq<int>)
    ensures forall x :: x in released && 1 <= x <= total && x !in sold && x !in unavailable
                        ==> x in Available(total, sold, unavailable, Exclude(pending, Elems(released)))
  {
  }
}
