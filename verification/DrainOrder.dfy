/** The drain after a timeout is a stable k-way merge, and `-t N` is exact. */
module DrainOrder {
  import opened Sequences
  import opened Timestamps
  import opened EntryQueues
  import opened MergeLoop
  import opened MergeInvariants

  // ----- the drain is a stable merge

  lemma HeadIsLeastOf(qs: seq<seq<Entry>>, d: nat, k: nat, x: Entry)
    requires k < |qs| && Sorted(qs[k]) && x in qs[k] && d == First(qs)
    ensures Key(qs[d][0]) <= Key(x) && (k < d ==> Key(qs[d][0]) < Key(x))
  {
    assert Key(qs[k][0]) <= Key(x);
  }

  lemma HeadIsLeast(qs: seq<seq<Entry>>, d: nat)
    requires forall k :: 0 <= k < |qs| ==> Sorted(qs[k])
    requires d == First(qs)
    ensures forall x :: x in Flatten(qs) ==> Key(qs[d][0]) <= Key(x)
    ensures forall x :: x in Flatten(qs[..d]) ==> Key(qs[d][0]) < Key(x)
  {
    forall x | x in Flatten(qs) ensures Key(qs[d][0]) <= Key(x) {
      FlattenMembers(qs, x);
      var k :| 0 <= k < |qs| && x in qs[k];
      HeadIsLeastOf(qs, d, k, x);
    }
    forall x | x in Flatten(qs[..d]) ensures Key(qs[d][0]) < Key(x) {
      FlattenMembers(qs[..d], x);
      var k :| 0 <= k < d && x in qs[..d][k];
      HeadIsLeastOf(qs, d, k, x);
    }
  }

  lemma HeadComesFirst(qs: seq<seq<Entry>>, d: nat, k: nat)
    requires d < |qs| && qs[d] != []
    requires forall x :: x in Flatten(qs[..d]) ==> Key(qs[d][0]) < Key(x)
    ensures WithKey(Flatten(qs), k) == WithKey([qs[d][0]] + Flatten(qs[d := qs[d][1..]]), k)
  {
    var e, rest := qs[d][0], qs[d][1..];
    var left := qs[d := rest];
    assert left[..d] == qs[..d] && left[d + 1..] == qs[d + 1..];
    WithKeyFlatten(qs, d, k);
    WithKeyFlatten(left, d, k);
    WithKeyConcat([e], Flatten(left), k);
    var b, r, a := WithKey(Flatten(qs[..d]), k), WithKey(rest, k), WithKey(Flatten(qs[d + 1..]), k);
    if k == Key(e) {
      WithKeyAbsent(Flatten(qs[..d]), k);
      assert WithKey([e], k) == [e] && WithKey(qs[d], k) == [e] + r;
      Assoc([e], r, a);
      assert b + ([e] + r) == [e] + r && b + r == r;
    } else {
      assert WithKey([e], k) == [] && WithKey(qs[d], k) == r;
      assert b + r + a == [] + (b + r + a);
    }
  }

  lemma SortedHead(e: Entry, s: seq<Entry>)
    requires forall x :: x in s ==> Key(e) <= Key(x)
    ensures Sorted([e] + StableSort(s))
  {
    StableSortIsStable(s);
    var t := StableSort(s);
    forall x | x in t ensures Key(e) <= Key(x) {
      WithKeyMembers(t, Key(x));
      assert WithKey(t, Key(x)) == WithKey(s, Key(x));
      WithKeyMembers(s, Key(x));
    }
  }

  /** The first device's head is the first entry of the stable sort of the pooled queues. */
  lemma FirstStartsStableSort(qs: seq<seq<Entry>>, d: nat)
    requires forall k :: 0 <= k < |qs| ==> Sorted(qs[k])
    requires d == First(qs)
    ensures StableSort(Flatten(qs)) == [qs[d][0]] + StableSort(Flatten(qs[d := qs[d][1..]]))
  {
    var e, pool, left := qs[d][0], Flatten(qs), Flatten(qs[d := qs[d][1..]]);
    HeadIsLeast(qs, d);
    FlattenPop(qs, d);
    forall x | x in left ensures Key(e) <= Key(x) {
      assert x in multiset(left) && x in multiset(pool);
    }
    SortedHead(e, left);
    StableSortIsStable(left);
    forall k: nat ensures WithKey([e] + StableSort(left), k) == WithKey(pool, k) {
      HeadComesFirst(qs, d, k);
      WithKeyConcat([e], left, k);
      WithKeyConcat([e], StableSort(left), k);
    }
    StableSortIsStable(pool);
    StableSortIsUnique(StableSort(pool), [e] + StableSort(left), pool);
  }

  lemma PopIsNext(cfg: Config, s: State, d: nat, shown: bool)
    requires Shape(s) && Ordered(s) && d == First(s.queues)
    ensures var t := Pop(cfg, s, d, shown);
            Entries(t.history) + StableSort(Flatten(t.queues)) == Entries(s.history) + StableSort(Flatten(s.queues))
  {
    FirstStartsStableSort(s.queues, d);
    EntriesAppend(s.history, Consumed(d, s.queues[d][0], shown));
    Assoc(Entries(s.history), [s.queues[d][0]], StableSort(Flatten(s.queues[d := s.queues[d][1..]])));
  }

  lemma PopKeepsOrder(cfg: Config, s: State, d: nat, shown: bool)
    requires Shape(s) && Ordered(s) && d < |s.queues| && s.queues[d] != []
    ensures Ordered(Pop(cfg, s, d, shown))
  {
  }

  /** The drain empties the queues and consumes them in stable-sorted order, equal stamps in
      device-list order and then in queue order. */
  lemma {:induction false} DrainIsStableMerge(cfg: Config, s: State)
    requires Shape(s) && Ordered(s)
    ensures Entries(Drain(cfg, s).history) == Entries(s.history) + StableSort(Flatten(s.queues))
    ensures Flatten(Drain(cfg, s).queues) == []
    decreases |Flatten(s.queues)|
  {
    var d := First(s.queues);
    if d == -1 {
      FlattenIsEmpty(s.queues);
    } else {
      var shown := cfg.tail == 0 || s.queuedLines <= cfg.tail;
      FlattenPop(s.queues, d);
      PopIsNext(cfg, s, d, shown);
      var t := Pop(cfg, s, d, shown);
      PopKeepsOrder(cfg, s, d, shown);
      DrainIsStableMerge(cfg, t);
      assert Drain(cfg, s) == Drain(cfg, t);
    }
  }

  // ----- -t N

  /** At least n queued entries are not older than e. */
  ghost predicate Backed(queued: multiset<Entry>, e: Entry, n: int) {
    exists newer: multiset<Entry> :: newer <= queued && |newer| >= n && forall x :: x in newer ==> Key(e) <= Key(x)
  }

  /** Before the drain nothing is printed, and what was skipped is not among the n newest. */
  ghost predicate Trimmed(cfg: Config, s: State) {
    && Shape(s) && Ordered(s) && Counted(s)
    && forall c :: c in s.history ==> !c.shown && Backed(multiset(Flatten(s.queues)), c.entry, cfg.tail)
  }

  lemma BackedSurvivesSkip(queued: multiset<Entry>, left: multiset<Entry>, least: Entry, e: Entry, n: int)
    requires queued == left + multiset{least} && |left| >= n
    requires forall x :: x in queued ==> Key(least) <= Key(x)
    requires Backed(queued, e, n) || e == least
    ensures Backed(left, e, n)
  {
    if Key(e) <= Key(least) {
      assert left <= left;
    } else {
      var newer :| newer <= queued && |newer| >= n && forall x :: x in newer ==> Key(e) <= Key(x);
      assert newer <= left;
    }
  }

  lemma BackedGrows(queued: multiset<Entry>, more: multiset<Entry>, e: Entry, n: int)
    requires Backed(queued, e, n) && queued <= more
    ensures Backed(more, e, n)
  {
    var newer :| newer <= queued && |newer| >= n && forall x :: x in newer ==> Key(e) <= Key(x);
    assert newer <= more;
  }

  lemma SkipKeepsTrimmed(cfg: Config, s: State, d: nat)
    requires Trimmed(cfg, s) && d == First(s.queues) && s.queuedLines > cfg.tail
    ensures Trimmed(cfg, Pop(cfg, s, d, false))
  {
    var t, e := Pop(cfg, s, d, false), s.queues[d][0];
    PopKeepsQueues(cfg, s, d, false);
    FlattenPop(s.queues, d);
    HeadIsLeast(s.queues, d);
    forall c | c in t.history
      ensures !c.shown && Backed(multiset(Flatten(t.queues)), c.entry, cfg.tail)
    {
      BackedSurvivesSkip(multiset(Flatten(s.queues)), multiset(Flatten(t.queues)), e, c.entry, cfg.tail);
    }
  }

  lemma ReceiveKeepsTrimmed(cfg: Config, s: State, d: nat, e: Entry)
    requires Trimmed(cfg, s) && d < |s.queues|
    ensures Trimmed(cfg, Receive(s, d, e))
  {
    InsertKeepsSorted(s.queues[d], e);
    InsertContents(s.queues[d], e);
    FlattenAdd(s.queues, d, Insert(s.queues[d], e), e);
    var queued, more := multiset(Flatten(s.queues)), multiset(Flatten(Receive(s, d, e).queues));
    forall c | c in s.history ensures Backed(more, c.entry, cfg.tail) {
      BackedGrows(queued, more, c.entry, cfg.tail);
    }
  }

  lemma {:induction false} ReadAllKeepsTrimmed(cfg: Config, s: State, results: seq<Read>, i: nat)
    requires Trimmed(cfg, s) && |results| == |s.queues| && i <= |results|
    ensures Trimmed(cfg, ReadAll(s, results, i).0)
    decreases |results| - i
  {
    if i < |results| {
      match results[i]
      case NotReady => ReadAllKeepsTrimmed(cfg, s, results, i + 1);
      case Got(e) =>
        ReceiveKeepsTrimmed(cfg, s, i, e);
        ReadAllKeepsTrimmed(cfg, Receive(s, i, e), results, i + 1);
      case _ =>
    }
  }

  lemma {:induction false} EagerKeepsTrimmed(cfg: Config, s: State)
    requires Trimmed(cfg, s) && cfg.tail > 0
    ensures Trimmed(cfg, Eager(cfg, s))
    decreases |Flatten(s.queues)|
  {
    var d := First(s.queues);
    if s.queuedLines > cfg.tail && d != -1 && |s.queues[d]| != 1 {
      SkipKeepsTrimmed(cfg, s, d);
      FlattenPop(s.queues, d);
      EagerKeepsTrimmed(cfg, Pop(cfg, s, d, false));
    }
  }

  lemma {:induction false} RunKeepsTrimmed(cfg: Config, n: nat, inputs: seq<Input>)
    requires Inputs(n, inputs) && cfg.tail > 0 && cfg.nonblock
    requires Run(cfg, n, inputs).running
    ensures Trimmed(cfg, Run(cfg, n, inputs))
  {
    if inputs == [] {
      FlattenEmpty(n);
    } else {
      RunKeepsTrimmed(cfg, n, inputs[..|inputs| - 1]);
      var s := Run(cfg, n, inputs[..|inputs| - 1]);
      match inputs[|inputs| - 1]
      case SelectError =>
      case Timeout =>
      case Ready(results) =>
        ReadAllKeepsTrimmed(cfg, s, results, 0);
        EagerKeepsTrimmed(cfg, ReadAll(s, results, 0).0.(sleep := false));
    }
  }

  /** Once no more than `tail` entries are queued the drain prints all of them. */
  lemma {:induction false} DrainPrintsRest(cfg: Config, s: State)
    requires Shape(s) && s.queuedLines <= cfg.tail
    ensures |Project(Drain(cfg, s).history, Printed)| == |Project(s.history, Printed)| + |Flatten(s.queues)|
    ensures forall c :: c in Drain(cfg, s).history ==> c in s.history || (c.shown && c.entry in Flatten(s.queues))
    decreases |Flatten(s.queues)|
  {
    var d := First(s.queues);
    if d == -1 {
      FlattenIsEmpty(s.queues);
    } else {
      var t := Pop(cfg, s, d, true);
      FlattenPop(s.queues, d);
      ProjectAppend(s.history, Consumed(d, s.queues[d][0], true), Printed);
      DrainPrintsRest(cfg, t);
      forall c | c in Drain(cfg, s).history
        ensures c in s.history || (c.shown && c.entry in Flatten(s.queues))
      {
        if c !in s.history {
          assert c.shown && (c.entry == s.queues[d][0] || c.entry in multiset(Flatten(t.queues)));
          assert c.entry in multiset(Flatten(s.queues));
        }
      }
    }
  }

  lemma BackedByAll(queued: multiset<Entry>, e: Entry, n: int)
    requires Backed(queued, e, n) && |queued| <= n
    ensures |queued| == n && forall x :: x in queued ==> Key(e) <= Key(x)
  {
    var newer :| newer <= queued && |newer| >= n && forall x :: x in newer ==> Key(e) <= Key(x);
    assert queued == newer + (queued - newer);
  }

  lemma {:induction false} NoneShown(h: seq<Consumed>)
    requires forall c :: c in h ==> !c.shown
    ensures Project(h, Printed) == []
  {
    if h != [] {
      NoneShown(h[..|h| - 1]);
    }
  }

  function Min(a: int, b: int): int { if a <= b then a else b }

  ghost predicate SkippedAreOlder(h: seq<Consumed>) {
    forall a, b :: a in h && b in h && !a.shown && b.shown ==> Key(a.entry) <= Key(b.entry)
  }

  /** When at most `tail` entries are left, all of them are as new as anything skipped. */
  lemma TrimmedBound(cfg: Config, s: State, c: Consumed)
    requires Trimmed(cfg, s) && s.queuedLines <= cfg.tail && c in s.history
    ensures |Flatten(s.queues)| == cfg.tail && forall x :: x in Flatten(s.queues) ==> Key(c.entry) <= Key(x)
  {
    var queued := multiset(Flatten(s.queues));
    assert |queued| == |Flatten(s.queues)|;
    BackedByAll(queued, c.entry, cfg.tail);
    assert forall x :: x in Flatten(s.queues) ==> x in queued;
  }

  /** The newest min(tail, total) entries are printed, in number and in age. */
  ghost predicate NewestPrinted(h: seq<Consumed>, tail: int, total: nat) {
    |Project(h, Printed)| == Min(tail, total) && SkippedAreOlder(h)
  }

  lemma RestIsNewer(cfg: Config, s: State, h: seq<Consumed>)
    requires Trimmed(cfg, s) && s.queuedLines <= cfg.tail
    requires forall c :: c in h ==> c in s.history || (c.shown && c.entry in Flatten(s.queues))
    ensures SkippedAreOlder(h)
  {
    forall a, b | a in h && b in h && !a.shown && b.shown
      ensures Key(a.entry) <= Key(b.entry)
    {
      TrimmedBound(cfg, s, a);
    }
  }

  lemma DrainPrintsNewest(cfg: Config, s: State)
    requires Trimmed(cfg, s) && 0 < cfg.tail && s.queuedLines <= cfg.tail
    ensures NewestPrinted(Drain(cfg, s).history, cfg.tail, |s.history| + |Flatten(s.queues)|)
  {
    DrainPrintsRest(cfg, s);
    RestIsNewer(cfg, s, Drain(cfg, s).history);
    NoneShown(s.history);
    if s.history != [] {
      TrimmedBound(cfg, s, s.history[0]);
    }
  }

  lemma {:induction false} DrainTrims(cfg: Config, s: State)
    requires Trimmed(cfg, s) && 0 < cfg.tail
    ensures NewestPrinted(Drain(cfg, s).history, cfg.tail, |s.history| + |Flatten(s.queues)|)
    decreases |Flatten(s.queues)|
  {
    if s.queuedLines <= cfg.tail {
      DrainPrintsNewest(cfg, s);
    } else {
      var d := First(s.queues);
      FlattenIsEmpty(s.queues);
      FlattenPop(s.queues, d);
      SkipKeepsTrimmed(cfg, s, d);
      var t := Pop(cfg, s, d, false);
      DrainTrims(cfg, t);
      assert |t.history| + |Flatten(t.queues)| == |s.history| + |Flatten(s.queues)|;
    }
  }

  lemma {:induction false} AllSkipped(h: seq<Consumed>)
    requires forall c :: c in h ==> !c.shown
    ensures Project(h, Skipped) == h
  {
    if h != [] {
      AllSkipped(h[..|h| - 1]);
      assert h == h[..|h| - 1] + [h[|h| - 1]];
    }
  }

  /** The printed part of a history whose end is in order and whose beginning was all skipped. */
  lemma {:induction false} PrintedIsSorted(h: seq<Consumed>, m: nat)
    requires m <= |h| && (forall i :: 0 <= i < m ==> !h[i].shown) && Sorted(Entries(h)[m..])
    ensures Sorted(Entries(Project(h, Printed)))
    ensures forall x :: x in Entries(Project(h, Printed)) ==> x in Entries(h)[m..]
  {
    if h != [] {
      var front, c := h[..|h| - 1], h[|h| - 1];
      var ends, rest := Entries(h)[m..], Project(front, Printed);
      if m < |h| {
        assert Entries(front)[m..] == ends[..|ends| - 1];
        PrintedIsSorted(front, m);
        assert ends[|ends| - 1] == c.entry;
        EntriesAppend(rest, c);
        PrefixBelowLast(ends);
        SortedSnoc(Entries(rest), c.entry);
        assert rest + [] == rest;
        assert Project(h, Printed) == if c.shown then rest + [c] else rest;
      } else {
        NoneShown(h);
      }
    }
  }

  lemma SortedSnoc(s: seq<Entry>, e: Entry)
    ensures Sorted(s) && (forall x :: x in s ==> Key(x) <= Key(e)) ==> Sorted(s + [e])
  {
    assert forall i :: 0 <= i < |s| ==> s[i] in s;
  }

  lemma PrefixBelowLast(s: seq<Entry>)
    requires s != [] && Sorted(s)
    ensures Sorted(s[..|s| - 1])
    ensures forall x :: x in s[..|s| - 1] ==> Key(x) <= Key(s[|s| - 1]) && x in s
  {
  }

  lemma {:induction false} DrainExtends(cfg: Config, s: State)
    requires Shape(s)
    ensures s.history <= Drain(cfg, s).history
    decreases |Flatten(s.queues)|
  {
    var d := First(s.queues);
    if d != -1 {
      FlattenPop(s.queues, d);
      DrainExtends(cfg, Pop(cfg, s, d, cfg.tail == 0 || s.queuedLines <= cfg.tail));
    }
  }

  lemma DrainPrintsInOrder(cfg: Config, s: State)
    requires Trimmed(cfg, s)
    ensures Sorted(Entries(Project(Drain(cfg, s).history, Printed)))
  {
    var h, m := Drain(cfg, s).history, |s.history|;
    DrainExtends(cfg, s);
    DrainIsStableMerge(cfg, s);
    StableSortIsStable(Flatten(s.queues));
    assert Entries(h)[m..] == StableSort(Flatten(s.queues));
    forall i | 0 <= i < m ensures !h[i].shown {
      assert h[i] == s.history[i] && s.history[i] in s.history;
    }
    PrintedIsSorted(h, m);
  }

  lemma {:induction false} DrainReadsNothing(cfg: Config, s: State)
    requires Shape(s)
    ensures Drain(cfg, s).arrived == s.arrived
    decreases |Flatten(s.queues)|
  {
    var d := First(s.queues);
    if d != -1 {
      FlattenPop(s.queues, d);
      DrainReadsNothing(cfg, Pop(cfg, s, d, cfg.tail == 0 || s.queuedLines <= cfg.tail));
    }
  }

  lemma {:induction false} EagerReadsNothing(cfg: Config, s: State)
    requires Shape(s)
    ensures Eager(cfg, s).arrived == s.arrived && Eager(cfg, s).running == s.running
    decreases |Flatten(s.queues)|
  {
    var d := First(s.queues);
    if (cfg.tail == 0 || s.queuedLines > cfg.tail) && d != -1 && |s.queues[d]| != 1 {
      FlattenPop(s.queues, d);
      EagerReadsNothing(cfg, Pop(cfg, s, d, cfg.tail == 0));
    }
  }

  /** Before the drain of a `-t N` run everything read is either skipped or queued. */
  lemma TrimmedTotal(cfg: Config, s: State)
    requires Trimmed(cfg, s) && Conserved(s)
    ensures |Flatten(s.arrived)| == |s.history| + |Flatten(s.queues)|
  {
    NoneShown(s.history);
    AllSkipped(s.history);
    assert |multiset(Flatten(s.arrived))| == |Flatten(s.arrived)|;
  }

  /** A `-t N` run up to its one drain prints exactly the min(N, entries read) newest entries,
      oldest first, and exits with nothing queued, whatever order the entries arrived in. */
  lemma TailIsExact(cfg: Config, n: nat, inputs: seq<Input>)
    requires Inputs(n, inputs) && 0 < cfg.tail && cfg.nonblock
    requires Run(cfg, n, inputs).running
    ensures Inputs(n, inputs + [Timeout])
    ensures var t := Run(cfg, n, inputs + [Timeout]);
            && !t.running && Flatten(t.queues) == []
            && NewestPrinted(t.history, cfg.tail, |Flatten(t.arrived)|)
            && Sorted(Entries(Project(t.history, Printed)))
  {
    var s := Run(cfg, n, inputs);
    assert (inputs + [Timeout])[..|inputs|] == inputs;
    RunKeepsTrimmed(cfg, n, inputs);
    RunKeepsInv(cfg, n, inputs);
    TrimmedTotal(cfg, s);
    DrainTrims(cfg, s.(sleep := true));
    DrainIsStableMerge(cfg, s.(sleep := true));
    DrainReadsNothing(cfg, s.(sleep := true));
    DrainPrintsInOrder(cfg, s.(sleep := true));
  }
}
