/** When the merge loop may block: `select` gets no timeout while `sleep` is set, so nothing should
    be queued then. A read interrupted by a signal breaks that, and only that does. */
module Blocking {
  import opened Timestamps
  import opened EntryQueues
  import opened MergeLoop

  /** Nothing is withheld if the next select blocks. */
  predicate BlocksEmpty(s: State) {
    s.sleep ==> Flatten(s.queues) == []
  }

  predicate Passes(r: Read) { r.NotReady? || r.Got? }

  /** Some device was read before a signal interrupted the read of a later one. */
  ghost predicate InterruptedAfterRead(results: seq<Read>) {
    exists i, j :: 0 <= i < j < |results| && results[i].Got? && results[j].Eintr?
                   && forall k :: 0 <= k < j ==> Passes(results[k])
  }

  lemma ReceiveFills(s: State, d: nat, e: Entry)
    requires Shape(s) && d < |s.queues|
    ensures Flatten(Receive(s, d, e).queues) != []
  {
    InsertContents(s.queues[d], e);
    FlattenAdd(s.queues, d, Insert(s.queues[d], e), e);
  }

  /** Where the loop over the devices ends, and what it leaves. */
  lemma {:induction false} ReadAllStops(s: State, results: seq<Read>, i: nat) returns (j: nat)
    requires Shape(s) && |results| == |s.queues| && i <= |results|
    ensures i <= j <= |results| && (forall k :: i <= k < j ==> Passes(results[k]))
    ensures j < |results| ==> !Passes(results[j])
    ensures var (t, outcome) := ReadAll(s, results, i);
            && t.sleep == s.sleep && t.running == s.running
            && (outcome == Interrupted <==> j < |results| && results[j].Eintr?)
            && (outcome == Died <==> j < |results| && results[j].Fatal?)
            && (Flatten(t.queues) == [] <==> Flatten(s.queues) == [] && forall k :: i <= k < j ==> !results[k].Got?)
    decreases |results| - i
  {
    if i == |results| || !Passes(results[i]) {
      j := i;
    } else if results[i].NotReady? {
      j := ReadAllStops(s, results, i + 1);
    } else {
      ReceiveFills(s, i, results[i].entry);
      j := ReadAllStops(Receive(s, i, results[i].entry), results, i + 1);
    }
  }

  lemma {:induction false} PoliciesKeepFlags(cfg: Config, s: State)
    requires Shape(s)
    ensures Drain(cfg, s).sleep == s.sleep == Eager(cfg, s).sleep
    ensures Flatten(Drain(cfg, s).queues) == []
    decreases |Flatten(s.queues)|
  {
    var d := First(s.queues);
    if d == -1 {
      FlattenIsEmpty(s.queues);
    } else {
      FlattenPop(s.queues, d);
      PoliciesKeepFlags(cfg, Pop(cfg, s, d, cfg.tail == 0));
      PoliciesKeepFlags(cfg, Pop(cfg, s, d, cfg.tail == 0 || s.queuedLines <= cfg.tail));
    }
  }

  lemma ReadyBlocksEmptyIff(cfg: Config, s: State, results: seq<Read>)
    requires Shape(s) && |results| == |s.queues| && s.running && BlocksEmpty(s)
    ensures var t := Round(cfg, s, Ready(results));
            t.running ==> (BlocksEmpty(t) <==> !(s.sleep && InterruptedAfterRead(results)))
  {
    var j := ReadAllStops(s, results, 0);
    var (t, outcome) := ReadAll(s, results, 0);
    PoliciesKeepFlags(cfg, t.(sleep := false));
    if i, k :| 0 <= i < k < |results| && results[i].Got? && results[k].Eintr? && forall l :: 0 <= l < k ==> Passes(results[l]) {
      assert j == k;
    }
  }

  /** A timeout leaves nothing queued and sleeps. Any other round that leaves the program running
      keeps BlocksEmpty exactly unless a read was interrupted after another had succeeded while
      `sleep` was still set from before. */
  lemma RoundBlocksEmptyIff(cfg: Config, s: State, input: Input)
    requires Fits(s, input) && s.running && BlocksEmpty(s)
    ensures var t := Round(cfg, s, input);
            && (input.Timeout? ==> t.sleep && Flatten(t.queues) == [])
            && (t.running ==>
                 (BlocksEmpty(t) <==> !(s.sleep && input.Ready? && InterruptedAfterRead(input.results))))
  {
    match input
    case SelectError =>
    case Timeout => PoliciesKeepFlags(cfg, s.(sleep := true));
    case Ready(results) => ReadyBlocksEmptyIff(cfg, s, results);
  }

  /** How the loop over the devices ends, from device i on. */
  function OutcomeFrom(results: seq<Read>, i: nat): Outcome
    requires i <= |results|
    decreases |results| - i
  {
    if i == |results| then Completed
    else match results[i]
      case NotReady => OutcomeFrom(results, i + 1)
      case Got(_) => OutcomeFrom(results, i + 1)
      case Eintr => Interrupted
      case Eagain => Completed
      case Fatal => Died
  }

  lemma {:induction false} OutcomeIs(s: State, results: seq<Read>, i: nat)
    requires Shape(s) && |results| == |s.queues| && i <= |results|
    ensures ReadAll(s, results, i).1 == OutcomeFrom(results, i)
    decreases |results| - i
  {
    if i < |results| {
      match results[i]
      case NotReady => OutcomeIs(s, results, i + 1);
      case Got(e) => OutcomeIs(Receive(s, i, e), results, i + 1);
      case _ =>
    }
  }

  /** No round after the last timeout has read all its devices. */
  predicate Asleep(inputs: seq<Input>) {
    inputs != [] &&
    match inputs[|inputs| - 1]
    case SelectError => Asleep(inputs[..|inputs| - 1])
    case Timeout => true
    case Ready(results) => OutcomeFrom(results, 0).Interrupted? && Asleep(inputs[..|inputs| - 1])
  }

  /** That is what `sleep` holds. */
  lemma {:induction false} SleepIsAsleep(cfg: Config, n: nat, inputs: seq<Input>)
    requires Inputs(n, inputs)
    ensures Run(cfg, n, inputs).running ==> (Run(cfg, n, inputs).sleep <==> Asleep(inputs))
  {
    if inputs != [] {
      var front := inputs[..|inputs| - 1];
      var s := Run(cfg, n, front);
      SleepIsAsleep(cfg, n, front);
      match inputs[|inputs| - 1]
      case SelectError =>
      case Timeout => PoliciesKeepFlags(cfg, s.(sleep := true));
      case Ready(results) =>
        var j := ReadAllStops(s, results, 0);
        OutcomeIs(s, results, 0);
        PoliciesKeepFlags(cfg, ReadAll(s, results, 0).0.(sleep := false));
    }
  }

  /** Round i starts asleep, and a read in it is interrupted after another has succeeded. */
  ghost predicate WithholdsAt(inputs: seq<Input>, i: nat)
    requires i < |inputs|
  {
    Asleep(inputs[..i]) && inputs[i].Ready? && InterruptedAfterRead(inputs[i].results)
  }

  lemma RunPrefix(cfg: Config, n: nat, inputs: seq<Input>, i: nat)
    requires Inputs(n, inputs) && i < |inputs|
    ensures var s, t := Run(cfg, n, inputs[..i]), Run(cfg, n, inputs[..i + 1]);
            t == Round(cfg, s, inputs[i]) && (t.running ==> s.running)
  {
    assert inputs[..i + 1][..i] == inputs[..i];
  }

  lemma {:induction false} PrefixesRun(cfg: Config, n: nat, inputs: seq<Input>, i: nat)
    requires Inputs(n, inputs) && i <= |inputs| && Run(cfg, n, inputs).running
    ensures Run(cfg, n, inputs[..i]).running
    decreases |inputs| - i
  {
    if i < |inputs| {
      PrefixesRun(cfg, n, inputs, i + 1);
      RunPrefix(cfg, n, inputs, i);
    } else {
      assert inputs[..i] == inputs;
    }
  }

  lemma {:induction false} PrefixBlocksEmpty(cfg: Config, n: nat, inputs: seq<Input>, i: nat)
    requires Inputs(n, inputs) && i <= |inputs| && Run(cfg, n, inputs).running
    requires forall k: nat :: k < i ==> !WithholdsAt(inputs, k)
    ensures BlocksEmpty(Run(cfg, n, inputs[..i]))
  {
    if i > 0 {
      var k := i - 1;
      PrefixBlocksEmpty(cfg, n, inputs, k);
      RunPrefix(cfg, n, inputs, k);
      PrefixesRun(cfg, n, inputs, i);
      assert k + 1 == i && !WithholdsAt(inputs, k);
      SleepIsAsleep(cfg, n, inputs[..k]);
      RoundBlocksEmptyIff(cfg, Run(cfg, n, inputs[..k]), inputs[k]);
    }
  }

  /** Over a run that is still going, the loop never blocks on queued entries exactly if no round
      withholds one in that way. */
  lemma RunBlocksEmptyIff(cfg: Config, n: nat, inputs: seq<Input>)
    requires Inputs(n, inputs) && Run(cfg, n, inputs).running
    ensures (forall i: nat :: i <= |inputs| ==> BlocksEmpty(Run(cfg, n, inputs[..i])))
       <==> (forall i: nat :: i < |inputs| ==> !WithholdsAt(inputs, i))
  {
    if forall i: nat :: i < |inputs| ==> !WithholdsAt(inputs, i) {
      forall i: nat | i <= |inputs| ensures BlocksEmpty(Run(cfg, n, inputs[..i])) {
        PrefixBlocksEmpty(cfg, n, inputs, i);
      }
    } else {
      var i: nat :| i < |inputs| && WithholdsAt(inputs, i);
      RunPrefix(cfg, n, inputs, i);
      PrefixesRun(cfg, n, inputs, i);
      PrefixesRun(cfg, n, inputs, i + 1);
      SleepIsAsleep(cfg, n, inputs[..i]);
      if BlocksEmpty(Run(cfg, n, inputs[..i])) {
        RoundBlocksEmptyIff(cfg, Run(cfg, n, inputs[..i]), inputs[i]);
        assert !BlocksEmpty(Run(cfg, n, inputs[..i + 1]));
      }
    }
  }

  /** So without interrupted reads the loop never blocks on queued entries. */
  lemma {:induction false} RunBlocksEmpty(cfg: Config, n: nat, inputs: seq<Input>)
    requires Inputs(n, inputs)
    requires forall i :: 0 <= i < |inputs| && inputs[i].Ready? ==> Eintr !in inputs[i].results
    ensures Run(cfg, n, inputs).running ==> BlocksEmpty(Run(cfg, n, inputs))
  {
    if inputs != [] {
      var front, last := inputs[..|inputs| - 1], inputs[|inputs| - 1];
      RunBlocksEmpty(cfg, n, front);
      if Run(cfg, n, front).running {
        RoundBlocksEmptyIff(cfg, Run(cfg, n, front), last);
      }
    }
  }

  /** The failing case: after a timeout, one entry is read and the next read is interrupted. The
      entry stays queued while select blocks. */
  lemma InterruptedReadWithholds(e: Entry)
    ensures var s := Run(Config(0, false, 2), 2, [Timeout, Ready([Got(e), Eintr])]);
            s.running && s.sleep && Flatten(s.queues) != []
  {
    var cfg, results, asleep := Config(0, false, 2), [Got(e), Eintr], Start(2).(sleep := true);
    var inputs := [Timeout, Ready(results)];
    assert inputs[..1] == [Timeout] && [Timeout][..0] == [];
    assert First(asleep.queues) == -1;
    FlattenIsEmpty(asleep.queues);
    assert Run(cfg, 2, [Timeout]) == asleep by {
      assert Run(cfg, 2, [Timeout]) == Round(cfg, Run(cfg, 2, []), Timeout);
      assert Drain(cfg, asleep) == asleep;
    }
    var j := ReadAllStops(asleep, results, 0);
    assert results[0].Got? && results[1].Eintr? && j == 1;
    assert Run(cfg, 2, inputs) == Round(cfg, asleep, inputs[1]);
  }
}
