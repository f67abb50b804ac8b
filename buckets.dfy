/** Status bucketing, as export.py:49-51 and stats.py:39-41 both do it: walk
    the id-to-status mapping the server returned and append each id to the
    `defaultdict(list)` entry of its status. */
module Buckets {
  import opened Wrappers
  import opened PyDict

  type MangaId = string
  type Status = string

  /** The set of statuses that occur in the status mapping. */
  ghost function Statuses(statuses: Dict<MangaId, Status>): set<Status>
  {
    if statuses == [] then {}
    else Statuses(statuses[..|statuses| - 1]) + {statuses[|statuses| - 1].1}
  }

  /** The distinct statuses, each where it is first seen. */
  function StatusOrder(statuses: Dict<MangaId, Status>): seq<Status>
  {
    if statuses == [] then []
    else
      var before := StatusOrder(statuses[..|statuses| - 1]);
      var s := statuses[|statuses| - 1].1;
      if s in before then before else before + [s]
  }

  /** The ids whose status is `s`, in the mapping's order. */
  function IdsWithStatus(statuses: Dict<MangaId, Status>, s: Status): seq<MangaId>
  {
    if statuses == [] then []
    else
      var last := statuses[|statuses| - 1];
      IdsWithStatus(statuses[..|statuses| - 1], s) + (if last.1 == s then [last.0] else [])
  }

  /** The buckets the grouping loop ends with. */
  function Grouped(statuses: Dict<MangaId, Status>): Dict<Status, seq<MangaId>>
  {
    var order := StatusOrder(statuses);
    seq(|order|, i requires 0 <= i < |order| => (order[i], IdsWithStatus(statuses, order[i])))
  }

  /** The grouping loop: `manga_lists[status].append(manga_id)` for every
      entry, a missing bucket starting out empty. */
  method GroupByStatus(statuses: Dict<MangaId, Status>) returns (lists: Dict<Status, seq<MangaId>>)
    ensures lists == Grouped(statuses)
  {
    lists := [];
    for i := 0 to |statuses|
      invariant lists == Grouped(statuses[..i])
    {
      var (id, status) := statuses[i];
      var current := match Get(lists, status) case Some(ids) => ids case None => [];
      GroupedStep(statuses[..i], (id, status));
      assert statuses[..i + 1] == statuses[..i] + [(id, status)];
      lists := Set(lists, status, current + [id]);
    }
    assert statuses[..|statuses|] == statuses;
  }

  lemma {:induction false} OrderMembers(statuses: Dict<MangaId, Status>)
    ensures forall s :: s in StatusOrder(statuses) <==> s in Statuses(statuses)
  {
    if statuses != [] {
      OrderMembers(statuses[..|statuses| - 1]);
    }
  }

  lemma {:induction false} OrderDistinct(statuses: Dict<MangaId, Status>)
    ensures forall i, j :: 0 <= i < j < |StatusOrder(statuses)| ==> StatusOrder(statuses)[i] != StatusOrder(statuses)[j]
  {
    if statuses != [] {
      OrderDistinct(statuses[..|statuses| - 1]);
    }
  }

  lemma {:induction false} StatusesAt(statuses: Dict<MangaId, Status>, k: nat)
    requires k < |statuses|
    ensures statuses[k].1 in Statuses(statuses)
    decreases |statuses|
  {
    var n := |statuses| - 1;
    if k < n {
      StatusesAt(statuses[..n], k);
    }
  }

  lemma {:induction false} StatusesWitness(statuses: Dict<MangaId, Status>, s: Status) returns (k: nat)
    requires s in Statuses(statuses)
    ensures k < |statuses| && statuses[k].1 == s
  {
    var n := |statuses| - 1;
    if statuses[n].1 == s {
      k := n;
    } else {
      k := StatusesWitness(statuses[..n], s);
    }
  }

  lemma {:induction false} IdsOfUnseen(statuses: Dict<MangaId, Status>, s: Status)
    requires s !in Statuses(statuses)
    ensures IdsWithStatus(statuses, s) == []
  {
    if statuses != [] {
      IdsOfUnseen(statuses[..|statuses| - 1], s);
    }
  }

  /** Appending one entry to the status mapping changes the buckets exactly
      as one iteration of the grouping loop does. */
  lemma GroupedStep(prefix: Dict<MangaId, Status>, entry: (MangaId, Status))
    ensures Grouped(prefix + [entry]) ==
      Set(Grouped(prefix), entry.1,
          (match Get(Grouped(prefix), entry.1) case Some(ids) => ids case None => []) + [entry.0])
  {
    var e := prefix + [entry];
    assert e[..|e| - 1] == prefix;
    OrderDistinct(prefix);
    OrderMembers(prefix);
    if entry.1 in StatusOrder(prefix) {
      GroupedStepSeen(prefix, entry);
    } else {
      GroupedStepUnseen(prefix, entry);
    }
  }

  /** The entry's status already has a bucket: the id joins it in place. */
  lemma GroupedStepSeen(prefix: Dict<MangaId, Status>, entry: (MangaId, Status))
    requires entry.1 in StatusOrder(prefix)
    ensures HasKey(Grouped(prefix), entry.1)
    ensures Grouped(prefix + [entry]) ==
      Set(Grouped(prefix), entry.1, Get(Grouped(prefix), entry.1).value + [entry.0])
  {
    var e := prefix + [entry];
    assert e[..|e| - 1] == prefix;
    var d := Grouped(prefix);
    var order := StatusOrder(prefix);
    var s := entry.1;
    OrderDistinct(prefix);
    var i :| 0 <= i < |order| && order[i] == s;
    assert d[i].0 == s;
    var v := Get(d, s).value;
    assert v == IdsWithStatus(prefix, s);
    assert IndexOf(d, s) == i;
    var r := Set(d, s, v + [entry.0]);
    assert StatusOrder(e) == order;
    assert |r| == |Grouped(e)|;
    forall m | 0 <= m < |r|
      ensures r[m] == Grouped(e)[m]
    {
      if m != i {
        assert order[m] != s;
        assert IdsWithStatus(e, order[m]) == IdsWithStatus(prefix, order[m]);
      }
    }
  }

  /** The entry's status is new: a bucket holding just the id is added at
      the end. */
  lemma GroupedStepUnseen(prefix: Dict<MangaId, Status>, entry: (MangaId, Status))
    requires entry.1 !in StatusOrder(prefix)
    ensures !HasKey(Grouped(prefix), entry.1)
    ensures Grouped(prefix + [entry]) == Grouped(prefix) + [(entry.1, [entry.0])]
  {
    var e := prefix + [entry];
    assert e[..|e| - 1] == prefix;
    var d := Grouped(prefix);
    var order := StatusOrder(prefix);
    var s := entry.1;
    OrderMembers(prefix);
    assert !HasKey(d, s);
    IdsOfUnseen(prefix, s);
    assert StatusOrder(e) == order + [s];
    var r := d + [(s, [entry.0])];
    assert |r| == |Grouped(e)|;
    forall m | 0 <= m < |r|
      ensures r[m] == Grouped(e)[m]
    {
      var oe := StatusOrder(e);
      assert Grouped(e)[m] == (oe[m], IdsWithStatus(e, oe[m]));
      if m < |order| {
        assert oe[m] == order[m] && order[m] != s;
        assert IdsWithStatus(e, order[m]) == IdsWithStatus(prefix, order[m]);
        assert r[m] == d[m] == (order[m], IdsWithStatus(prefix, order[m]));
      } else {
        assert oe[m] == s;
        assert IdsWithStatus(e, s) == IdsWithStatus(prefix, s) + [entry.0];
        assert IdsWithStatus(e, s) == [entry.0];
        assert r[m] == (s, [entry.0]);
      }
    }
  }

  lemma {:induction false} IdsMembers(statuses: Dict<MangaId, Status>, s: Status, id: MangaId)
    ensures id in IdsWithStatus(statuses, s) <==> exists k :: 0 <= k < |statuses| && statuses[k] == (id, s)
  {
    if statuses != [] {
      var n := |statuses| - 1;
      IdsMembers(statuses[..n], s, id);
      if exists k :: 0 <= k < |statuses| && statuses[k] == (id, s) {
        var k :| 0 <= k < |statuses| && statuses[k] == (id, s);
        if k < n {
          assert statuses[..n][k] == (id, s);
        }
      }
    }
  }

  /** Every id lands in the bucket of its own status and in no other. */
  lemma IdInOwnBucketOnly(statuses: Dict<MangaId, Status>, k: nat, s: Status)
    requires DistinctKeys(statuses) && k < |statuses|
    requires HasKey(Grouped(statuses), s)
    ensures statuses[k].0 in Get(Grouped(statuses), s).value <==> s == statuses[k].1
  {
    var d := Grouped(statuses);
    var id := statuses[k].0;
    var i :| 0 <= i < |d| && d[i] == (s, Get(d, s).value);
    IdsMembers(statuses, s, id);
    if s == statuses[k].1 {
      assert statuses[k] == (id, s);
    } else if id in IdsWithStatus(statuses, s) {
      var k' :| 0 <= k' < |statuses| && statuses[k'] == (id, s);
      assert false;
    }
  }

  /** Every status of the mapping has a bucket, and no other status does. */
  lemma BucketKeys(statuses: Dict<MangaId, Status>, s: Status)
    ensures HasKey(Grouped(statuses), s) <==> exists k :: 0 <= k < |statuses| && statuses[k].1 == s
  {
    OrderMembers(statuses);
    var d := Grouped(statuses);
    if HasKey(d, s) {
      var i := IndexOf(d, s);
      var k := StatusesWitness(statuses, s);
    }
    if exists k :: 0 <= k < |statuses| && statuses[k].1 == s {
      var k :| 0 <= k < |statuses| && statuses[k].1 == s;
      StatusesAt(statuses, k);
      var i :| 0 <= i < |StatusOrder(statuses)| && StatusOrder(statuses)[i] == s;
      assert d[i].0 == s;
    }
  }

  /** `a` occurs in the mapping at a point where `b` has not occurred yet. */
  ghost predicate SeenBefore(statuses: Dict<MangaId, Status>, a: Status, b: Status)
  {
    exists k :: 0 <= k < |statuses| && statuses[k].1 == a && b !in Statuses(statuses[..k + 1])
  }

  lemma {:induction false} StatusesOfPrefix(statuses: Dict<MangaId, Status>, n: nat)
    requires n <= |statuses|
    ensures Statuses(statuses[..n]) <= Statuses(statuses)
    decreases |statuses|
  {
    if n < |statuses| {
      var m := |statuses| - 1;
      assert statuses[..m][..n] == statuses[..n];
      StatusesOfPrefix(statuses[..m], n);
    } else {
      assert statuses[..n] == statuses;
    }
  }

  /** Buckets appear in the order in which their statuses are first seen. */
  lemma {:induction false} BucketsInFirstSeenOrder(statuses: Dict<MangaId, Status>)
    ensures forall i, j :: 0 <= i < j < |Grouped(statuses)| ==>
      SeenBefore(statuses, Grouped(statuses)[i].0, Grouped(statuses)[j].0)
  {
    if statuses != [] {
      var n := |statuses| - 1;
      var p := statuses[..n];
      var order := StatusOrder(p);
      BucketsInFirstSeenOrder(p);
      OrderMembers(p);
      forall i, j | 0 <= i < j < |StatusOrder(statuses)|
        ensures SeenBefore(statuses, StatusOrder(statuses)[i], StatusOrder(statuses)[j])
      {
        var a, b := StatusOrder(statuses)[i], StatusOrder(statuses)[j];
        if j < |order| {
          assert Grouped(p)[i].0 == a && Grouped(p)[j].0 == b;
          var k :| 0 <= k < |p| && p[k].1 == a && b !in Statuses(p[..k + 1]);
          assert statuses[..k + 1] == p[..k + 1];
          assert statuses[k] == p[k];
        } else {
          assert b == statuses[n].1 && b !in Statuses(p);
          assert a in Statuses(p);
          var k := StatusesWitness(p, a);
          StatusesOfPrefix(p, k + 1);
          assert statuses[..k + 1] == p[..k + 1];
          assert statuses[k] == p[k];
        }
      }
    }
  }

  /** The total size of a set of buckets. */
  function BucketSizes(lists: Dict<Status, seq<MangaId>>): nat
  {
    if lists == [] then 0 else |lists[0].1| + BucketSizes(lists[1..])
  }

  lemma {:induction false} BucketSizesAppend(lists: Dict<Status, seq<MangaId>>, b: (Status, seq<MangaId>))
    ensures BucketSizes(lists + [b]) == BucketSizes(lists) + |b.1|
  {
    if lists != [] {
      assert (lists + [b])[1..] == lists[1..] + [b];
      BucketSizesAppend(lists[1..], b);
    }
  }

  lemma {:induction false} BucketSizesAt(lists: Dict<Status, seq<MangaId>>, i: nat, b: (Status, seq<MangaId>))
    requires i < |lists|
    ensures BucketSizes(lists[i := b]) == BucketSizes(lists) - |lists[i].1| + |b.1|
  {
    if i > 0 {
      assert lists[i := b][1..] == lists[1..][i - 1 := b];
      BucketSizesAt(lists[1..], i - 1, b);
    }
  }

  /** The buckets together hold exactly as many ids as the mapping: none is
      lost and none is counted twice. */
  lemma {:induction false} BucketSizesTotal(statuses: Dict<MangaId, Status>)
    ensures BucketSizes(Grouped(statuses)) == |statuses|
  {
    if statuses != [] {
      var n := |statuses| - 1;
      var p := statuses[..n];
      BucketSizesTotal(p);
      GroupedStep(p, statuses[n]);
      assert p + [statuses[n]] == statuses;
      var d := Grouped(p);
      var s := statuses[n].1;
      if HasKey(d, s) {
        var i := IndexOf(d, s);
        var v := Get(d, s).value;
        GetIsFirst(d, s);
        BucketSizesAt(d, i, (s, v + [statuses[n].0]));
      } else {
        assert Get(d, s) == None;
        var one: seq<MangaId> := [] + [statuses[n].0];
        assert one == [statuses[n].0];
        assert Set(d, s, one) == d + [(s, one)];
        BucketSizesAppend(d, (s, [statuses[n].0]));
      }
    }
  }
}
