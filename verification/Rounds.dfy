/** What one round of the loop does, in terms of its results and of the queues alone: which reads
    count, when the program goes on, and how little the eager policy holds back. */
module Rounds {
  import opened Timestamps
  import opened EntryQueues
  import opened MergeLoop
  import opened MergeInvariants
  import opened DrainOrder
  import opened Blocking

  // ----- what the eager policy holds back

  /** The head of d is the only entry of its queue, and no queued entry is older. */
  ghost predicate LoneLeast(queues: seq<seq<Entry>>, d: nat) {
    && d < |queues| && |queues[d]| == 1
    && forall k, i :: 0 <= k < |queues| && 0 <= i < |queues[k]| ==> Key(queues[d][0]) <= Key(queues[k][i])
  }

  /** Nothing more can be told to be next. */
  ghost predicate HeldBack(queues: seq<seq<Entry>>) {
    (forall d :: 0 <= d < |queues| ==> queues[d] == []) || exists d: nat :: LoneLeast(queues, d)
  }

  /** b is what is left of a queue a that was not emptied. */
  ghost predicate KeepsOne(a: seq<Entry>, b: seq<Entry>) {
    |b| <= |a| && b == a[|a| - |b|..] && (a != [] ==> b != [])
  }

  lemma LoneHeadIsLeast(qs: seq<seq<Entry>>, d: nat)
    requires forall k :: 0 <= k < |qs| ==> Sorted(qs[k])
    requires d == First(qs) && |qs[d]| == 1
    ensures LoneLeast(qs, d)
  {
    forall k, i | 0 <= k < |qs| && 0 <= i < |qs[k]| ensures Key(qs[d][0]) <= Key(qs[k][i]) {
      HeadIsLeastOf(qs, d, k, qs[k][i]);
    }
  }

  lemma KeepsOneMore(a: seq<Entry>, b: seq<Entry>, c: seq<Entry>)
    requires |a| > 1 && b == a[1..] && KeepsOne(b, c)
    ensures KeepsOne(a, c)
  {
  }

  /** The eager policy stops only when each further entry might not be the next, or with -t N when no
      more than N are queued; it takes entries off the front and empties no queue. */
  lemma {:induction false} EagerHoldsBack(cfg: Config, s: State)
    requires Shape(s) && Ordered(s) && Counted(s)
    ensures var t := Eager(cfg, s);
            && Counted(t) && (HeldBack(t.queues) || (cfg.tail != 0 && t.queuedLines <= cfg.tail))
            && forall d :: 0 <= d < |s.queues| ==> KeepsOne(s.queues[d], t.queues[d])
    decreases |Flatten(s.queues)|
  {
    var d := First(s.queues);
    if cfg.tail == 0 || s.queuedLines > cfg.tail {
      if d != -1 && |s.queues[d]| != 1 {
        var t := Pop(cfg, s, d, cfg.tail == 0);
        FlattenPop(s.queues, d);
        PopKeepsQueues(cfg, s, d, cfg.tail == 0);
        EagerHoldsBack(cfg, t);
        assert Eager(cfg, s) == Eager(cfg, t);
        KeepsOneMore(s.queues[d], t.queues[d], Eager(cfg, t).queues[d]);
      } else if d != -1 {
        LoneHeadIsLeast(s.queues, d);
      }
    }
  }

  // ----- what a round of reads takes, and how it ends

  /** The reads before j succeed or are not due, the one at j does not. */
  ghost predicate EndsAt(results: seq<Read>, j: nat) {
    && j <= |results| && (forall k :: 0 <= k < j ==> results[k].NotReady? || results[k].Got?)
    && (j < |results| ==> results[j].Eintr? || results[j].Eagain? || results[j].Fatal?)
  }

  lemma {:induction false} ReadAllTakes(s: State, results: seq<Read>, i: nat, j: nat, d: nat)
    requires Shape(s) && |results| == |s.queues| && i <= j && d < |results| && EndsAt(results, j)
    ensures var t := ReadAll(s, results, i).0;
            t.arrived[d] == s.arrived[d] + if i <= d < j && results[d].Got? then [results[d].entry] else []
    decreases |results| - i
  {
    if i < j {
      match results[i]
      case NotReady => ReadAllTakes(s, results, i + 1, j, d);
      case Got(e) =>
        var u := Receive(s, i, e);
        ReadAllTakes(u, results, i + 1, j, d);
        assert ReadAll(s, results, i) == ReadAll(u, results, i + 1);
    }
  }

  lemma ReadsEnd(s: State, results: seq<Read>, j: nat)
    requires Shape(s) && |results| == |s.queues| && EndsAt(results, j)
    ensures var (t, outcome) := ReadAll(s, results, 0);
            && t.sleep == s.sleep && t.running == s.running
            && outcome == if j == |results| || results[j].Eagain? then Completed
                          else if results[j].Eintr? then Interrupted else Died
  {
    var k := ReadAllStops(s, results, 0);
    assert k == j;
  }

  lemma {:induction false} PoliciesKeepRunning(cfg: Config, s: State)
    requires Shape(s)
    ensures Eager(cfg, s).running == s.running
    decreases |Flatten(s.queues)|
  {
    var d := First(s.queues);
    if (cfg.tail == 0 || s.queuedLines > cfg.tail) && d != -1 && |s.queues[d]| != 1 {
      FlattenPop(s.queues, d);
      PoliciesKeepRunning(cfg, Pop(cfg, s, d, cfg.tail == 0));
    }
  }

  /** A round of reads takes exactly the entries before the first read that fails. The program goes on
      unless that failure is neither EINTR nor EAGAIN, and `sleep` is cleared unless it is EINTR. */
  lemma ReadyRoundIs(cfg: Config, s: State, results: seq<Read>, j: nat)
    requires Shape(s) && |results| == |s.queues| && s.running && EndsAt(results, j)
    ensures var t := Round(cfg, s, Ready(results));
            && (forall d :: 0 <= d < |results| ==>
                 t.arrived[d] == s.arrived[d] + if d < j && results[d].Got? then [results[d].entry] else [])
            && (t.running <==> !(j < |results| && results[j].Fatal?))
            && (t.running ==> t.sleep == (s.sleep && j < |results| && results[j].Eintr?))
  {
    ReadsEnd(s, results, j);
    var t := ReadAll(s, results, 0).0.(sleep := false);
    PoliciesKeepRunning(cfg, t);
    PoliciesKeepFlags(cfg, t);
    EagerReadsNothing(cfg, t);
    forall d | 0 <= d < |results|
      ensures Round(cfg, s, Ready(results)).arrived[d] == s.arrived[d] + if d < j && results[d].Got? then [results[d].entry] else []
    {
      ReadAllTakes(s, results, 0, j, d);
    }
  }

  /** A timeout empties the queues, reads nothing, and ends the program with -d only; an error of
      select changes nothing. */
  lemma OtherRoundsAre(cfg: Config, s: State)
    requires Shape(s) && s.running
    ensures var t := Round(cfg, s, Timeout);
            Flatten(t.queues) == [] && t.arrived == s.arrived && t.sleep && (t.running <==> !cfg.nonblock)
    ensures Round(cfg, s, SelectError) == s
  {
    PoliciesKeepFlags(cfg, s.(sleep := true));
    DrainReadsNothing(cfg, s.(sleep := true));
  }

  // ----- in any run

  lemma EagerAfterReads(cfg: Config, t: State)
    requires Shape(t) && Ordered(t) && Counted(t)
    ensures var u := Eager(cfg, t.(sleep := false));
            HeldBack(u.queues) || (cfg.tail != 0 && u.queuedLines <= cfg.tail)
  {
    EagerHoldsBack(cfg, t.(sleep := false));
  }

  lemma CompletedRound(cfg: Config, s: State, results: seq<Read>, j: nat)
    requires Shape(s) && s.running && |results| == |s.queues| && EndsAt(results, j)
    requires j < |results| ==> results[j].Eagain?
    ensures Round(cfg, s, Ready(results)) == Eager(cfg, ReadAll(s, results, 0).0.(sleep := false))
  {
    ReadsEnd(s, results, j);
  }

  lemma QueuesAfterReads(cfg: Config, s: State, results: seq<Read>)
    requires Inv(cfg, s) && |results| == |s.queues|
    ensures var t := ReadAll(s, results, 0).0; Shape(t) && Ordered(t) && Counted(t)
  {
    ReadAllKeepsInv(cfg, s, results, 0);
  }

  lemma CompletedHoldsBack(cfg: Config, s: State, results: seq<Read>, j: nat)
    requires Inv(cfg, s) && s.running && |results| == |s.queues| && EndsAt(results, j)
    requires j < |results| ==> results[j].Eagain?
    ensures var t := Round(cfg, s, Ready(results));
            HeldBack(t.queues) || (cfg.tail != 0 && t.queuedLines <= cfg.tail)
  {
    CompletedRound(cfg, s, results, j);
    QueuesAfterReads(cfg, s, results);
    EagerAfterReads(cfg, ReadAll(s, results, 0).0);
  }

  /** After each round of any run that ends without EINTR and without exit, all queues are empty or a
      queue of one entry has the oldest of all, or with -t N at most N entries are queued. */
  lemma RunHoldsBack(cfg: Config, n: nat, inputs: seq<Input>, results: seq<Read>, j: nat)
    requires Inputs(n, inputs) && Run(cfg, n, inputs).running
    requires |results| == n && EndsAt(results, j) && (j < n ==> results[j].Eagain?)
    ensures Inputs(n, inputs + [Ready(results)])
    ensures var t := Run(cfg, n, inputs + [Ready(results)]);
            && t.running && t.queuedLines == |Flatten(t.queues)|
            && (HeldBack(t.queues) || (cfg.tail != 0 && t.queuedLines <= cfg.tail))
  {
    assert (inputs + [Ready(results)])[..|inputs|] == inputs;
    RunKeepsInv(cfg, n, inputs);
    RunKeepsInv(cfg, n, inputs + [Ready(results)]);
    ReadyRoundIs(cfg, Run(cfg, n, inputs), results, j);
    CompletedHoldsBack(cfg, Run(cfg, n, inputs), results, j);
  }
}
