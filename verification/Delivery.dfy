/** What becomes of the entries that arrive: each is pending in its driver, queued, printed or
    skipped, and a select that times out leaves none of those that were there behind. */
module Delivery {
  import opened Timestamps
  import opened EntryQueues
  import opened MergeLoop
  import opened MergeInvariants
  import opened DrainOrder
  import opened MergeWorld
  import Rounds

  // ----- without -t everything consumed is printed

  ghost predicate AllShown(s: State) {
    forall c :: c in s.history ==> c.shown
  }

  lemma {:induction false} DrainShowsAll(cfg: Config, s: State)
    requires cfg.tail == 0 && Shape(s) && AllShown(s)
    ensures AllShown(Drain(cfg, s)) && AllShown(Eager(cfg, s))
    decreases |Flatten(s.queues)|
  {
    var d := First(s.queues);
    if d != -1 {
      FlattenPop(s.queues, d);
      DrainShowsAll(cfg, Pop(cfg, s, d, true));
    }
  }

  lemma {:induction false} ReadAllShowsNothing(s: State, results: seq<Read>, i: nat)
    requires Shape(s) && |results| == |s.queues| && i <= |results|
    ensures ReadAll(s, results, i).0.history == s.history
    decreases |results| - i
  {
    if i < |results| {
      match results[i]
      case NotReady => ReadAllShowsNothing(s, results, i + 1);
      case Got(e) => ReadAllShowsNothing(Receive(s, i, e), results, i + 1);
      case _ =>
    }
  }

  lemma RoundShowsAll(cfg: Config, s: State, input: Input)
    requires cfg.tail == 0 && Fits(s, input) && AllShown(s)
    ensures AllShown(Round(cfg, s, input))
  {
    match input
    case SelectError =>
    case Timeout => DrainShowsAll(cfg, s.(sleep := true));
    case Ready(results) =>
      ReadAllShowsNothing(s, results, 0);
      DrainShowsAll(cfg, ReadAll(s, results, 0).0.(sleep := false));
  }

  lemma {:induction false} ProjectAllShown(h: seq<Consumed>)
    requires forall c :: c in h ==> c.shown
    ensures Project(h, Printed) == h
  {
    if h != [] {
      ProjectAllShown(h[..|h| - 1]);
      assert h == h[..|h| - 1] + [h[|h| - 1]];
    }
  }

  lemma {:induction false} RunShowsAll(cfg: Config, n: nat, inputs: seq<Input>)
    requires cfg.tail == 0 && Inputs(n, inputs)
    ensures AllShown(Run(cfg, n, inputs))
  {
    if inputs != [] {
      RunShowsAll(cfg, n, inputs[..|inputs| - 1]);
      RoundShowsAll(cfg, Run(cfg, n, inputs[..|inputs| - 1]), inputs[|inputs| - 1]);
    }
  }

  lemma NothingLeft(cfg: Config, s: State)
    requires Inv(cfg, s) && AllShown(s) && Flatten(s.queues) == []
    ensures multiset(Entries(Lines(s.writes))) == multiset(Flatten(s.arrived))
  {
    ProjectAllShown(s.history);
    NoneSkipped(s.history);
    assert Count(s.history, Skipped) == multiset{};
  }

  // ----- a negative -t

  ghost predicate AllHidden(s: State) {
    forall c :: c in s.history ==> !c.shown
  }

  lemma {:induction false} PoliciesHideAll(cfg: Config, s: State)
    requires cfg.tail < 0 && Shape(s) && Ordered(s) && Counted(s) && AllHidden(s)
    ensures AllHidden(Drain(cfg, s)) && AllHidden(Eager(cfg, s))
    decreases |Flatten(s.queues)|
  {
    var d := First(s.queues);
    if d != -1 {
      FlattenPop(s.queues, d);
      PopKeepsQueues(cfg, s, d, false);
      PoliciesHideAll(cfg, Pop(cfg, s, d, false));
    }
  }

  lemma RoundHidesAll(cfg: Config, s: State, input: Input)
    requires cfg.tail < 0 && Fits(s, input) && Inv(cfg, s) && AllHidden(s)
    ensures AllHidden(Round(cfg, s, input))
  {
    match input
    case SelectError =>
    case Timeout => PoliciesHideAll(cfg, s.(sleep := true));
    case Ready(results) =>
      ReadAllShowsNothing(s, results, 0);
      Rounds.QueuesAfterReads(cfg, s, results);
      PoliciesHideAll(cfg, ReadAll(s, results, 0).0.(sleep := false));
  }

  /** With a negative -t nothing is ever printed. */
  lemma {:induction false} NegativeTailPrintsNothing(cfg: Config, n: nat, inputs: seq<Input>)
    requires cfg.tail < 0 && Inputs(n, inputs)
    ensures AllHidden(Run(cfg, n, inputs)) && Lines(Run(cfg, n, inputs).writes) == []
  {
    RunKeepsInv(cfg, n, inputs);
    if inputs != [] {
      var front := inputs[..|inputs| - 1];
      NegativeTailPrintsNothing(cfg, n, front);
      RunKeepsInv(cfg, n, front);
      RoundHidesAll(cfg, Run(cfg, n, front), inputs[|inputs| - 1]);
    }
    NoneShown(Run(cfg, n, inputs).history);
  }

  lemma TimeoutEmptiesQueues(cfg: Config, s: State)
    requires Shape(s) && Ordered(s) && s.running
    ensures Flatten(Round(cfg, s, Timeout).queues) == []
  {
    DrainIsStableMerge(cfg, s.(sleep := true));
  }

  /** Without -t, once a select times out every entry read so far has been printed, whatever
      errors the reads had. */
  lemma TimeoutPrintsEverything(cfg: Config, n: nat, inputs: seq<Input>)
    requires cfg.tail == 0 && Inputs(n, inputs) && Run(cfg, n, inputs).running
    ensures Inputs(n, inputs + [Timeout])
    ensures var s := Run(cfg, n, inputs + [Timeout]);
            multiset(Entries(Lines(s.writes))) == multiset(Flatten(s.arrived))
  {
    var longer := inputs + [Timeout];
    assert longer[..|inputs|] == inputs;
    RunKeepsInv(cfg, n, inputs);
    TimeoutEmptiesQueues(cfg, Run(cfg, n, inputs));
    RunKeepsInv(cfg, n, longer);
    RunShowsAll(cfg, n, longer);
    assert Run(cfg, n, longer) == Round(cfg, Run(cfg, n, inputs), Timeout);
    NothingLeft(cfg, Run(cfg, n, longer));
  }

  lemma {:induction false} NoneSkipped(h: seq<Consumed>)
    requires forall c :: c in h ==> c.shown
    ensures Project(h, Skipped) == []
  {
    if h != [] {
      NoneSkipped(h[..|h| - 1]);
    }
  }

  // ----- in the world

  /** The theorems about runs, in every state of the world. */
  lemma WorldKeepsInv(cfg: Config, n: nat, actions: seq<Action>)
    ensures var s := Steps(cfg, n, actions).reader;
            Inv(cfg, s) && (cfg.tail == 0 ==> AllShown(s) && Lines(s.writes) == s.history)
  {
    var inputs := WorldIsRun(cfg, n, actions);
    RunKeepsInv(cfg, n, inputs);
    if cfg.tail == 0 {
      RunShowsAll(cfg, n, inputs);
      ProjectAllShown(Run(cfg, n, inputs).history);
    }
  }

  /** The entries that arrive at device d. */
  function Arrivals(cfg: Config, n: nat, actions: seq<Action>, d: nat): seq<Entry> {
    if actions == [] then []
    else
      var front, a := actions[..|actions| - 1], actions[|actions| - 1];
      Arrivals(cfg, n, front, d) + if a.Arrive? && a.dev == d && Enabled(Steps(cfg, n, front), a) then [a.entry] else []
  }

  lemma HeadMoves(taken: seq<Entry>, pending: seq<Entry>)
    requires pending != []
    ensures taken + [pending[0]] + pending[1..] == taken + pending
  {
  }

  lemma RoundTakes(cfg: Config, w: World, stop: nat, d: nat)
    requires Coherent(w) && w.phase.Selected? && w.reader.running && Enabled(w, Finish(stop)) && d < |w.pending|
    ensures var v := Next(cfg, w, Finish(stop));
            v.reader.arrived[d] + v.pending[d] == w.reader.arrived[d] + w.pending[d]
  {
    var s, pending := w.reader, w.pending[d];
    if true in w.phase.ready {
      Rounds.ReadAllTakes(s, Results(w, stop), 0, stop, d);
      ReadAllOutcome(s, Results(w, stop), 0, stop);
      var (t, outcome) := ReadAll(s, Results(w, stop), 0);
      EagerReadsNothing(cfg, t.(sleep := false));
      if w.phase.ready[d] && d < stop {
        HeadMoves(s.arrived[d], pending);
      }
    } else {
      DrainReadsNothing(cfg, s.(sleep := true));
    }
  }

  /** Each device's arrivals are what was read from it and then what is pending. */
  lemma {:induction false} ArrivedOrPending(cfg: Config, n: nat, actions: seq<Action>, d: nat)
    requires d < n
    ensures var w := Steps(cfg, n, actions);
            |w.pending| == n && Arrivals(cfg, n, actions, d) == w.reader.arrived[d] + w.pending[d]
  {
    if actions != [] {
      var front, a := actions[..|actions| - 1], actions[|actions| - 1];
      var w := Steps(cfg, n, front);
      ArrivedOrPending(cfg, n, front, d);
      StepsKeepInv(cfg, n, front);
      if Enabled(w, a) {
        match a
        case Arrive(_, e) => assert w.reader.arrived[d] + (w.pending[d] + [e]) == w.reader.arrived[d] + w.pending[d] + [e];
        case Finish(stop) => RoundTakes(cfg, w, stop, d);
        case _ =>
      }
    }
  }

  function AllArrivals(cfg: Config, n: nat, actions: seq<Action>): seq<Entry> {
    Flatten(seq(n, d requires 0 <= d < n => Arrivals(cfg, n, actions, d)))
  }

  lemma {:induction false} FlattenSums(all: seq<seq<Entry>>, a: seq<seq<Entry>>, b: seq<seq<Entry>>)
    requires |all| == |a| == |b| && forall d :: 0 <= d < |all| ==> all[d] == a[d] + b[d]
    ensures multiset(Flatten(all)) == multiset(Flatten(a)) + multiset(Flatten(b))
  {
    if all != [] {
      FlattenSums(all[1..], a[1..], b[1..]);
      assert multiset(all[0]) == multiset(a[0]) + multiset(b[0]);
    }
  }

  lemma ReadOrPending(cfg: Config, n: nat, actions: seq<Action>)
    ensures var w := Steps(cfg, n, actions);
            multiset(AllArrivals(cfg, n, actions)) == multiset(Flatten(w.reader.arrived)) + multiset(Flatten(w.pending))
  {
    var w := Steps(cfg, n, actions);
    var inputs := WorldIsRun(cfg, n, actions);
    var all := seq(n, d requires 0 <= d < n => Arrivals(cfg, n, actions, d));
    forall d | 0 <= d < n ensures all[d] == w.reader.arrived[d] + w.pending[d] {
      ArrivedOrPending(cfg, n, actions, d);
    }
    FlattenSums(all, w.reader.arrived, w.pending);
  }

  /** In every state of every run each entry that arrived has been printed or skipped, or is queued
      or pending. */
  lemma NothingVanishes(cfg: Config, n: nat, actions: seq<Action>)
    ensures var w := Steps(cfg, n, actions); var h := w.reader.history;
            multiset(AllArrivals(cfg, n, actions))
            == Count(h, Printed) + Count(h, Skipped) + multiset(Flatten(w.reader.queues)) + multiset(Flatten(w.pending))
  {
    ReadOrPending(cfg, n, actions);
    WorldKeepsInv(cfg, n, actions);
  }

  /** And nothing else is printed. */
  lemma PrintedArrived(cfg: Config, n: nat, actions: seq<Action>, e: Entry)
    requires e in Entries(Project(Steps(cfg, n, actions).reader.history, Printed))
    ensures exists a :: a in actions && a.Arrive? && a.entry == e
  {
    NothingVanishes(cfg, n, actions);
    assert e in Count(Steps(cfg, n, actions).reader.history, Printed);
    assert e in multiset(AllArrivals(cfg, n, actions));
    var all := seq(n, d requires 0 <= d < n => Arrivals(cfg, n, actions, d));
    FlattenMembers(all, e);
    var d :| 0 <= d < n && e in all[d];
    ArrivalsAreActions(cfg, n, actions, d, e);
  }

  lemma {:induction false} ArrivalsAreActions(cfg: Config, n: nat, actions: seq<Action>, d: nat, e: Entry)
    requires e in Arrivals(cfg, n, actions, d)
    ensures exists a :: a in actions && a.Arrive? && a.entry == e
  {
    var front, last := actions[..|actions| - 1], actions[|actions| - 1];
    if e in Arrivals(cfg, n, front, d) {
      ArrivalsAreActions(cfg, n, front, d, e);
    } else {
      assert last in actions && last.Arrive? && last.entry == e;
    }
  }

  /** The last action is the end of a round whose select timed out. */
  predicate EndsWithTimeout(cfg: Config, n: nat, actions: seq<Action>) {
    actions != [] &&
    var w, a := Steps(cfg, n, actions[..|actions| - 1]), actions[|actions| - 1];
    a.Finish? && Enabled(w, a) && true !in w.phase.ready
  }

  /** When that select looked. */
  function LastSelect(cfg: Config, n: nat, actions: seq<Action>): nat
    requires EndsWithTimeout(cfg, n, actions)
  {
    Steps(cfg, n, actions[..|actions| - 1]).phase.at
  }

  /** Nothing pending is older than a select that finds nothing. */
  lemma TimeoutSeesAll(cfg: Config, w: World, stop: nat)
    requires WorldInv(w) && Enabled(w, Finish(stop)) && true !in w.phase.ready
    ensures Next(cfg, w, Finish(stop)).pending == w.pending
    ensures forall e :: e in Flatten(w.pending) ==> w.phase.at <= Key(e)
  {
    assert Unread(w, stop) == w.pending;
    forall e | e in Flatten(w.pending) ensures w.phase.at <= Key(e) {
      FlattenMembers(w.pending, e);
      var d :| 0 <= d < |w.pending| && e in w.pending[d];
      assert !w.phase.ready[d] && From(w.pending[d], w.phase.at);
    }
  }

  lemma TimeoutOfRun(cfg: Config, n: nat, inputs: seq<Input>)
    requires Inputs(n, inputs) && Run(cfg, n, inputs).running
    ensures Inputs(n, inputs + [Timeout])
    ensures var t := Run(cfg, n, inputs + [Timeout]);
            && t == Round(cfg, Run(cfg, n, inputs), Timeout) && Flatten(t.queues) == []
            && (cfg.tail == 0 ==> Count(t.history, Skipped) == multiset{})
            && (0 < cfg.tail && cfg.nonblock ==> NewestPrinted(t.history, cfg.tail, |Flatten(t.arrived)|))
  {
    assert (inputs + [Timeout])[..|inputs|] == inputs;
    RunKeepsInv(cfg, n, inputs);
    TimeoutEmptiesQueues(cfg, Run(cfg, n, inputs));
    if cfg.tail == 0 {
      RunShowsAll(cfg, n, inputs + [Timeout]);
      NoneSkipped(Run(cfg, n, inputs + [Timeout]).history);
    } else if 0 < cfg.tail && cfg.nonblock {
      TailIsExact(cfg, n, inputs);
    }
  }

  /** Then nothing is queued and nothing pending is older than that select. Without -t everything
      else that arrived has been printed; with -t N, min(N, read) entries, the newest. */
  lemma TimeoutDelivers(cfg: Config, n: nat, actions: seq<Action>)
    requires EndsWithTimeout(cfg, n, actions)
    ensures var w := Steps(cfg, n, actions); var h := w.reader.history;
            && Flatten(w.reader.queues) == []
            && (forall e :: e in Flatten(w.pending) ==> LastSelect(cfg, n, actions) <= Key(e))
            && (cfg.tail == 0 ==>
                 multiset(AllArrivals(cfg, n, actions)) == Count(h, Printed) + multiset(Flatten(w.pending)))
            && (0 < cfg.tail && cfg.nonblock ==> NewestPrinted(h, cfg.tail, |Flatten(w.reader.arrived)|))
  {
    var front := actions[..|actions| - 1];
    StepsKeepInv(cfg, n, front);
    TimeoutSeesAll(cfg, Steps(cfg, n, front), actions[|actions| - 1].stop);
    var inputs := WorldIsRun(cfg, n, front);
    TimeoutOfRun(cfg, n, inputs);
    assert Steps(cfg, n, actions).reader == Round(cfg, Steps(cfg, n, front).reader, Timeout);
    NothingVanishes(cfg, n, actions);
  }
}
