/** Sorted queues of entries and the stable sort that the merge is measured against. */
module EntryQueues {
  import opened Sequences
  import opened Timestamps

  ghost predicate Sorted(s: seq<Entry>) {
    forall i, j :: 0 <= i < j < |s| ==> Key(s[i]) <= Key(s[j])
  }

  /** Insertion after every entry that is not later: what `enqueue` does to a queue. */
  function Insert(q: seq<Entry>, e: Entry): seq<Entry> {
    if q == [] || Key(e) < Key(q[0]) then [e] + q else [q[0]] + Insert(q[1..], e)
  }

  lemma {:induction false} InsertAt(q: seq<Entry>, e: Entry, i: nat)
    requires i <= |q|
    requires forall j :: 0 <= j < i ==> Key(q[j]) <= Key(e)
    requires i < |q| ==> Key(e) < Key(q[i])
    ensures Insert(q, e) == q[..i] + [e] + q[i..]
  {
    if i == 0 {
      assert q[..0] + [e] + q[0..] == [e] + q;
    } else {
      InsertAt(q[1..], e, i - 1);
      assert q[..i] == [q[0]] + q[1..][..i - 1];
      assert q[1..][i - 1..] == q[i..];
    }
  }

  lemma {:induction false} InsertPlace(q: seq<Entry>, e: Entry) returns (i: nat)
    requires Sorted(q)
    ensures i <= |q|
    ensures forall j :: 0 <= j < i ==> Key(q[j]) <= Key(e)
    ensures forall j :: i <= j < |q| ==> Key(e) < Key(q[j])
    ensures Insert(q, e) == q[..i] + [e] + q[i..]
  {
    i := 0;
    while i < |q| && Key(q[i]) <= Key(e)
      invariant i <= |q|
      invariant forall j :: 0 <= j < i ==> Key(q[j]) <= Key(e)
    {
      i := i + 1;
    }
    InsertAt(q, e, i);
  }

  lemma InsertKeepsSorted(q: seq<Entry>, e: Entry)
    requires Sorted(q)
    ensures Sorted(Insert(q, e))
  {
    var i := InsertPlace(q, e);
  }

  lemma {:induction false} InsertContents(q: seq<Entry>, e: Entry)
    ensures multiset(Insert(q, e)) == multiset(q) + multiset{e}
    ensures |Insert(q, e)| == |q| + 1
    ensures forall x :: x in Insert(q, e) <==> x in q || x == e
  {
    if !(q == [] || Key(e) < Key(q[0])) {
      InsertContents(q[1..], e);
      assert q == [q[0]] + q[1..];
    }
  }

  /** An entry no earlier than the whole queue goes to its end. */
  lemma InsertLast(q: seq<Entry>, e: Entry)
    requires forall j :: 0 <= j < |q| ==> Key(q[j]) <= Key(e)
    ensures Insert(q, e) == q + [e]
  {
    InsertAt(q, e, |q|);
    assert q[..|q|] == q;
  }

  /** The entries stamped k, in order. */
  function WithKey(s: seq<Entry>, k: nat): seq<Entry> {
    if s == [] then [] else (if Key(s[0]) == k then [s[0]] else []) + WithKey(s[1..], k)
  }

  lemma {:induction false} WithKeyConcat(a: seq<Entry>, b: seq<Entry>, k: nat)
    ensures WithKey(a + b, k) == WithKey(a, k) + WithKey(b, k)
  {
    if a == [] {
      assert a + b == b;
    } else {
      WithKeyConcat(a[1..], b, k);
      assert (a + b)[1..] == a[1..] + b && (a + b)[0] == a[0];
      Assoc(if Key(a[0]) == k then [a[0]] else [], WithKey(a[1..], k), WithKey(b, k));
    }
  }

  lemma {:induction false} WithKeyAbsent(s: seq<Entry>, k: nat)
    requires forall x :: x in s ==> Key(x) != k
    ensures WithKey(s, k) == []
  {
    if s != [] {
      WithKeyAbsent(s[1..], k);
    }
  }

  lemma {:induction false} WithKeyMembers(s: seq<Entry>, k: nat)
    ensures WithKey(s, k) == [] <==> forall x :: x in s ==> Key(x) != k
  {
    if s != [] {
      WithKeyMembers(s[1..], k);
      assert s == [s[0]] + s[1..];
    }
  }

  /** What a stable sort is: sorted, and equal stamps keep their order. */
  ghost predicate StablySorts(out: seq<Entry>, s: seq<Entry>) {
    Sorted(out) && forall k: nat :: WithKey(out, k) == WithKey(s, k)
  }

  /** That determines the result. */
  lemma {:induction false} StableSortIsUnique(a: seq<Entry>, b: seq<Entry>, s: seq<Entry>)
    requires StablySorts(a, s) && StablySorts(b, s)
    ensures a == b
  {
    SortedUnique(a, b);
  }

  lemma {:induction false} SortedUnique(a: seq<Entry>, b: seq<Entry>)
    requires Sorted(a) && Sorted(b) && forall k: nat :: WithKey(a, k) == WithKey(b, k)
    ensures a == b
  {
    if a == [] || b == [] {
      if a != b {
        var x := if a == [] then b[0] else a[0];
        WithKeyMembers(a, Key(x));
        WithKeyMembers(b, Key(x));
        assert false;
      }
    } else {
      WithKeyMembers(b, Key(a[0]));
      WithKeyMembers(a, Key(b[0]));
      assert WithKey(a, Key(a[0]))[0] == a[0];
      assert WithKey(b, Key(b[0]))[0] == b[0];
      assert a[0] == b[0];
      forall k: nat ensures WithKey(a[1..], k) == WithKey(b[1..], k) {
        var first := if Key(a[0]) == k then [a[0]] else [];
        assert WithKey(a, k) == first + WithKey(a[1..], k);
        assert WithKey(b, k) == first + WithKey(b[1..], k);
        assert WithKey(a[1..], k) == WithKey(a, k)[|first|..];
        assert WithKey(b[1..], k) == WithKey(b, k)[|first|..];
      }
      SortedUnique(a[1..], b[1..]);
      assert a == [a[0]] + a[1..] && b == [b[0]] + b[1..];
    }
  }

  /** Insertion sort with `Insert`. */
  function StableSort(s: seq<Entry>): seq<Entry> {
    if s == [] then [] else Insert(StableSort(s[..|s| - 1]), s[|s| - 1])
  }

  lemma {:induction false} InsertIsStable(q: seq<Entry>, e: Entry, k: nat)
    requires Sorted(q)
    ensures WithKey(Insert(q, e), k) == WithKey(q + [e], k)
  {
    var i := InsertPlace(q, e);
    var before, after := q[..i], q[i..];
    WithKeyConcat(before + [e], after, k);
    WithKeyConcat(before, [e], k);
    WithKeyConcat(before, after, k);
    WithKeyConcat(q, [e], k);
    assert q == before + after;
    if k == Key(e) {
      WithKeyAbsent(after, k);
    }
  }

  lemma {:induction false} StableSortIsStable(s: seq<Entry>)
    ensures StablySorts(StableSort(s), s)
  {
    if s != [] {
      var front, e := s[..|s| - 1], s[|s| - 1];
      StableSortIsStable(front);
      InsertKeepsSorted(StableSort(front), e);
      forall k: nat ensures WithKey(StableSort(s), k) == WithKey(s, k) {
        InsertIsStable(StableSort(front), e, k);
        WithKeyConcat(StableSort(front), [e], k);
        WithKeyConcat(front, [e], k);
        assert s == front + [e];
      }
    }
  }

  lemma {:induction false} StableSortContents(s: seq<Entry>)
    ensures multiset(StableSort(s)) == multiset(s) && |StableSort(s)| == |s|
  {
    if s != [] {
      var front, e := s[..|s| - 1], s[|s| - 1];
      StableSortContents(front);
      InsertContents(StableSort(front), e);
      assert s == front + [e];
    }
  }

  /** All queues in device-list order. */
  function Flatten(qs: seq<seq<Entry>>): seq<Entry> {
    if qs == [] then [] else qs[0] + Flatten(qs[1..])
  }

  lemma {:induction false} FlattenSplit(qs: seq<seq<Entry>>, d: nat)
    requires d < |qs|
    ensures Flatten(qs) == Flatten(qs[..d]) + qs[d] + Flatten(qs[d + 1..])
  {
    if d > 0 {
      FlattenSplit(qs[1..], d - 1);
      assert qs[1..][..d - 1] == qs[1..d];
      assert qs[..d][1..] == qs[1..d];
      assert qs[1..][d..] == qs[d + 1..];
    }
  }

  lemma {:induction false} FlattenMembers(qs: seq<seq<Entry>>, x: Entry)
    ensures x in Flatten(qs) <==> exists d :: 0 <= d < |qs| && x in qs[d]
  {
    if qs != [] {
      FlattenMembers(qs[1..], x);
      if x in Flatten(qs[1..]) {
        var d :| 0 <= d < |qs[1..]| && x in qs[1..][d];
        assert x in qs[d + 1];
      }
      if d :| 0 < d < |qs| && x in qs[d] {
        assert x in qs[1..][d - 1];
      }
    }
  }

  lemma WithKeyFlatten(qs: seq<seq<Entry>>, d: nat, k: nat)
    requires d < |qs|
    ensures WithKey(Flatten(qs), k)
         == WithKey(Flatten(qs[..d]), k) + WithKey(qs[d], k) + WithKey(Flatten(qs[d + 1..]), k)
  {
    FlattenSplit(qs, d);
    WithKeyConcat(Flatten(qs[..d]) + qs[d], Flatten(qs[d + 1..]), k);
    WithKeyConcat(Flatten(qs[..d]), qs[d], k);
  }

  lemma {:induction false} FlattenIsEmpty(qs: seq<seq<Entry>>)
    ensures Flatten(qs) == [] <==> forall d :: 0 <= d < |qs| ==> qs[d] == []
  {
    if qs != [] {
      FlattenIsEmpty(qs[1..]);
      assert forall d :: 0 < d < |qs| ==> qs[d] == qs[1..][d - 1];
    }
  }

  /** Replacing one queue by one with one entry more adds that entry to the pool. */
  lemma FlattenAdd(qs: seq<seq<Entry>>, d: nat, q: seq<Entry>, e: Entry)
    requires d < |qs| && multiset(q) == multiset(qs[d]) + multiset{e}
    ensures multiset(Flatten(qs[d := q])) == multiset(Flatten(qs)) + multiset{e}
    ensures |Flatten(qs[d := q])| == |Flatten(qs)| + 1
  {
    FlattenSplit(qs, d);
    FlattenSplit(qs[d := q], d);
    assert qs[d := q][..d] == qs[..d] && qs[d := q][d + 1..] == qs[d + 1..];
    assert |multiset(q)| == |q| && |multiset(qs[d])| == |qs[d]|;
  }

  /** Taking the head of one queue takes that entry from the pool. */
  lemma FlattenPop(qs: seq<seq<Entry>>, d: nat)
    requires d < |qs| && qs[d] != []
    ensures multiset(Flatten(qs)) == multiset(Flatten(qs[d := qs[d][1..]])) + multiset{qs[d][0]}
    ensures |Flatten(qs)| == |Flatten(qs[d := qs[d][1..]])| + 1
  {
    var rest := qs[d := qs[d][1..]];
    assert qs[d] == [qs[d][0]] + qs[d][1..];
    assert rest[d := qs[d]] == qs;
    FlattenAdd(rest, d, qs[d], qs[d][0]);
  }
}
