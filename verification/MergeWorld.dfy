/** The merge loop in its environment: drivers that stamp entries with the clock and hold them
    in a FIFO per device, and a `select` that samples readiness at one instant. Entries may
    arrive at any time, also between a `select` and the reads and prints that follow it. */
module MergeWorld {
  import opened Timestamps
  import opened EntryQueues
  import opened MergeLoop
  import opened MergeInvariants

  datatype Phase = Idle | Selected(ready: seq<bool>, at: nat)

  datatype World = World(reader: State, pending: seq<seq<Entry>>, clock: nat, phase: Phase)

  /** `Finish(stop)` is the rest of a round: the ready devices before `stop` are read; if `stop`
      is a device, its read is interrupted by a signal. */
  datatype Action = Advance(to: nat) | Arrive(dev: nat, entry: Entry) | Select | Finish(stop: nat)

  predicate Coherent(w: World) {
    && Shape(w.reader) && |w.pending| == |w.reader.queues|
    && (w.phase.Selected? ==>
          |w.phase.ready| == |w.pending| && forall d :: 0 <= d < |w.pending| && w.phase.ready[d] ==> w.pending[d] != [])
  }

  function Begin(n: nat): World {
    World(Start(n), seq(n, _ => []), 0, Idle)
  }

  predicate Enabled(w: World, a: Action) {
    match a
    case Advance(to) => w.clock <= to
    case Arrive(d, e) => d < |w.pending| && Key(e) == w.clock
    case Select => // with `sleep` set, select has no timeout: it blocks until something is pending
      w.phase.Idle? && w.reader.running && (!w.reader.sleep || exists d :: 0 <= d < |w.pending| && w.pending[d] != [])
    case Finish(stop) =>
      w.phase.Selected? && stop <= |w.phase.ready| && (stop < |w.phase.ready| ==> w.phase.ready[stop])
  }

  function Results(w: World, stop: nat): seq<Read>
    requires Coherent(w) && w.phase.Selected?
  {
    seq(|w.pending|, d requires 0 <= d < |w.pending| =>
      if !w.phase.ready[d] then NotReady else if d == stop then Eintr else Got(w.pending[d][0]))
  }

  function Unread(w: World, stop: nat): seq<seq<Entry>>
    requires Coherent(w) && w.phase.Selected?
  {
    seq(|w.pending|, d requires 0 <= d < |w.pending| =>
      if w.phase.ready[d] && d < stop then w.pending[d][1..] else w.pending[d])
  }

  /** Disabled actions do nothing, so that every sequence of actions is a run. */
  function Next(cfg: Config, w: World, a: Action): (v: World)
    requires Coherent(w)
    ensures Coherent(v)
  {
    if !Enabled(w, a) then w
    else match a
      case Advance(to) => w.(clock := to)
      case Arrive(d, e) => w.(pending := w.pending[d := w.pending[d] + [e]])
      case Select =>
        var ready := seq(|w.pending|, d requires 0 <= d < |w.pending| => w.pending[d] != []);
        w.(phase := Selected(ready, w.clock))
      case Finish(stop) =>
        var input := if true in w.phase.ready then Ready(Results(w, stop)) else Timeout;
        World(Round(cfg, w.reader, input), Unread(w, stop), w.clock, Idle)
  }

  function Steps(cfg: Config, n: nat, actions: seq<Action>): (w: World)
    ensures Coherent(w)
  {
    if actions == [] then Begin(n)
    else Next(cfg, Steps(cfg, n, actions[..|actions| - 1]), actions[|actions| - 1])
  }

  // ----- the invariant

  ghost predicate AllLE(a: seq<Entry>, b: seq<Entry>) {
    forall x, y :: x in a && y in b ==> Key(x) <= Key(y)
  }

  ghost predicate UpTo(a: seq<Entry>, t: nat) {
    forall x :: x in a ==> Key(x) <= t
  }

  ghost predicate From(a: seq<Entry>, t: nat) {
    forall x :: x in a ==> t <= Key(x)
  }

  /** Device d's entries are consumed, queued and pending in that order of time. */
  ghost predicate DeviceFlows(consumed: seq<Entry>, queue: seq<Entry>, pending: seq<Entry>) {
    && AllLE(consumed, queue) && AllLE(consumed, pending) && AllLE(queue, pending)
    && Sorted(queue) && Sorted(pending)
  }

  ghost predicate Flows(consumed: seq<Entry>, queues: seq<seq<Entry>>, pending: seq<seq<Entry>>) {
    && |pending| == |queues| && Sorted(consumed)
    && forall d :: 0 <= d < |queues| ==> DeviceFlows(consumed, queues[d], pending[d])
  }

  /** Everything read so far was stamped by time t. */
  ghost predicate ReadBy(consumed: seq<Entry>, queues: seq<seq<Entry>>, t: nat) {
    UpTo(consumed, t) && forall d :: 0 <= d < |queues| ==> UpTo(queues[d], t)
  }

  /** The held-back-last-entry argument: a device with nothing queued had nothing pending at t. */
  ghost predicate Covered(queues: seq<seq<Entry>>, pending: seq<seq<Entry>>, t: nat)
    requires |pending| == |queues|
  {
    forall d :: 0 <= d < |queues| ==> queues[d] != [] || From(pending[d], t)
  }

  ghost predicate Quiet(pending: seq<seq<Entry>>, t: nat) {
    forall d :: 0 <= d < |pending| ==> From(pending[d], t)
  }

  /** What the last select saw: heads of ready devices are no later, other entries no earlier. */
  ghost predicate Sampled(pending: seq<seq<Entry>>, ready: seq<bool>, t: nat) {
    && |ready| == |pending|
    && forall d :: 0 <= d < |pending| ==>
         if ready[d] then pending[d] != [] && Key(pending[d][0]) <= t else From(pending[d], t)
  }

  ghost predicate WorldInv(w: World) {
    var consumed, queues := Entries(w.reader.history), w.reader.queues;
    && Coherent(w) && Flows(consumed, queues, w.pending)
    && ReadBy(consumed, queues, w.clock)
    && (forall d :: 0 <= d < |w.pending| ==> UpTo(w.pending[d], w.clock))
    && (w.phase.Selected? ==>
          && w.reader.running
          && w.phase.at <= w.clock && ReadBy(consumed, queues, w.phase.at)
          && Sampled(w.pending, w.phase.ready, w.phase.at))
  }

  // ----- consuming

  lemma OtherDeviceFlows(consumed: seq<Entry>, e: Entry, queue: seq<Entry>, pending: seq<Entry>, t: nat)
    requires DeviceFlows(consumed, queue, pending)
    requires if queue != [] then Key(e) <= Key(queue[0]) else From(pending, t) && Key(e) <= t
    ensures DeviceFlows(consumed + [e], queue, pending)
  {
    if queue != [] {
      assert queue[0] in queue;
    }
  }

  lemma PoppedDeviceFlows(consumed: seq<Entry>, queue: seq<Entry>, pending: seq<Entry>)
    requires DeviceFlows(consumed, queue, pending) && queue != []
    ensures DeviceFlows(consumed + [queue[0]], queue[1..], pending)
  {
    assert queue[0] in queue && forall x :: x in queue[1..] ==> x in queue;
  }

  lemma PopFlowsAt(consumed: seq<Entry>, queues: seq<seq<Entry>>, pending: seq<seq<Entry>>, t: nat, d: nat, k: nat)
    requires |pending| == |queues| && k < |queues| && d == First(queues)
    requires DeviceFlows(consumed, queues[k], pending[k])
    requires Key(queues[d][0]) <= t && (queues[k] != [] || From(pending[k], t))
    ensures DeviceFlows(consumed + [queues[d][0]], queues[d := queues[d][1..]][k], pending[k])
  {
    if k == d {
      PoppedDeviceFlows(consumed, queues[d], pending[d]);
    } else {
      OtherDeviceFlows(consumed, queues[d][0], queues[k], pending[k], t);
    }
  }

  lemma SortedAppend(consumed: seq<Entry>, queue: seq<Entry>)
    requires Sorted(consumed) && AllLE(consumed, queue) && queue != []
    ensures Sorted(consumed + [queue[0]])
  {
    assert queue[0] in queue;
  }

  lemma PopKeepsFlow(consumed: seq<Entry>, queues: seq<seq<Entry>>, pending: seq<seq<Entry>>, t: nat, d: nat)
    requires Flows(consumed, queues, pending) && ReadBy(consumed, queues, t) && Covered(queues, pending, t)
    requires d == First(queues)
    ensures Flows(consumed + [queues[d][0]], queues[d := queues[d][1..]], pending)
  {
    assert Key(queues[d][0]) <= t by { assert UpTo(queues[d], t) && queues[d][0] in queues[d]; }
    SortedAppend(consumed, queues[d]);
    forall k | 0 <= k < |queues|
      ensures DeviceFlows(consumed + [queues[d][0]], queues[d := queues[d][1..]][k], pending[k])
    {
      PopFlowsAt(consumed, queues, pending, t, d, k);
    }
  }

  lemma PopKeepsCover(queues: seq<seq<Entry>>, pending: seq<seq<Entry>>, t: nat, d: nat)
    requires |pending| == |queues| && d < |queues| && |queues[d]| > 1 && Covered(queues, pending, t)
    ensures Covered(queues[d := queues[d][1..]], pending, t)
  {
  }

  lemma PopKeepsRead(consumed: seq<Entry>, queues: seq<seq<Entry>>, t: nat, d: nat)
    requires ReadBy(consumed, queues, t) && d < |queues| && queues[d] != []
    ensures ReadBy(consumed + [queues[d][0]], queues[d := queues[d][1..]], t)
  {
    assert UpTo(queues[d], t) && queues[d][0] in queues[d];
    assert forall x :: x in queues[d][1..] ==> x in queues[d];
  }

  ghost predicate InStep(s: State, pending: seq<seq<Entry>>, t: nat) {
    Shape(s) && Flows(Entries(s.history), s.queues, pending) && ReadBy(Entries(s.history), s.queues, t)
  }

  lemma PopStaysInStep(cfg: Config, s: State, pending: seq<seq<Entry>>, t: nat, d: nat, shown: bool)
    requires InStep(s, pending, t) && Covered(s.queues, pending, t) && d == First(s.queues)
    ensures InStep(Pop(cfg, s, d, shown), pending, t)
    ensures |Flatten(Pop(cfg, s, d, shown).queues)| < |Flatten(s.queues)|
    ensures |s.queues[d]| > 1 ==> Covered(Pop(cfg, s, d, shown).queues, pending, t)
  {
    PopKeepsFlow(Entries(s.history), s.queues, pending, t, d);
    PopKeepsRead(Entries(s.history), s.queues, t, d);
    FlattenPop(s.queues, d);
    EntriesAppend(s.history, Consumed(d, s.queues[d][0], shown));
    if |s.queues[d]| > 1 {
      PopKeepsCover(s.queues, pending, t, d);
    }
  }

  /** The eager policy never empties a queue, so it keeps the time order. */
  lemma {:induction false} EagerKeepsFlow(cfg: Config, s: State, pending: seq<seq<Entry>>, t: nat)
    requires InStep(s, pending, t) && Covered(s.queues, pending, t)
    ensures InStep(Eager(cfg, s), pending, t)
    decreases |Flatten(s.queues)|
  {
    var d := First(s.queues);
    if (cfg.tail == 0 || s.queuedLines > cfg.tail) && d != -1 && |s.queues[d]| != 1 {
      PopStaysInStep(cfg, s, pending, t, d, cfg.tail == 0);
      EagerKeepsFlow(cfg, Pop(cfg, s, d, cfg.tail == 0), pending, t);
      assert Eager(cfg, s) == Eager(cfg, Pop(cfg, s, d, cfg.tail == 0));
    } else {
      assert Eager(cfg, s) == s;
    }
  }

  /** The timeout policy empties them, but runs only when nothing older can come. */
  lemma {:induction false} DrainKeepsFlow(cfg: Config, s: State, pending: seq<seq<Entry>>, t: nat)
    requires InStep(s, pending, t) && Quiet(pending, t)
    ensures InStep(Drain(cfg, s), pending, t)
    decreases |Flatten(s.queues)|
  {
    var d := First(s.queues);
    if d != -1 {
      var shown := cfg.tail == 0 || s.queuedLines <= cfg.tail;
      PopStaysInStep(cfg, s, pending, t, d, shown);
      DrainKeepsFlow(cfg, Pop(cfg, s, d, shown), pending, t);
      assert Drain(cfg, s) == Drain(cfg, Pop(cfg, s, d, shown));
    }
  }

  // ----- reading

  /** Every read before `stop` succeeds. */
  predicate StopsAt(results: seq<Read>, i: nat, stop: nat) {
    && i <= stop <= |results| && (stop < |results| ==> results[stop].Eintr?)
    && forall k :: i <= k < stop ==> results[k].NotReady? || results[k].Got?
  }

  lemma {:induction false} ReadAllOutcome(s: State, results: seq<Read>, i: nat, stop: nat)
    requires Shape(s) && |results| == |s.queues| && StopsAt(results, i, stop)
    ensures var (t, outcome) := ReadAll(s, results, i);
            t.history == s.history && outcome == if stop < |results| then Interrupted else Completed
    decreases |results| - i
  {
    if i < stop {
      match results[i]
      case NotReady => ReadAllOutcome(s, results, i + 1, stop);
      case Got(e) => ReadAllOutcome(Receive(s, i, e), results, i + 1, stop);
    }
  }

  /** What the device loop then does to device d. */
  lemma {:induction false} ReadAllEffect(s: State, results: seq<Read>, i: nat, stop: nat, d: nat)
    requires Shape(s) && |results| == |s.queues| && d < |results| && StopsAt(results, i, stop)
    ensures var t := ReadAll(s, results, i).0;
            t.queues[d] == if i <= d < stop && results[d].Got? then Insert(s.queues[d], results[d].entry) else s.queues[d]
    decreases |results| - i
  {
    if i < stop {
      match results[i]
      case NotReady => ReadAllEffect(s, results, i + 1, stop, d);
      case Got(e) =>
        var u := Receive(s, i, e);
        ReadAllEffect(u, results, i + 1, stop, d);
        assert ReadAll(s, results, i) == ReadAll(u, results, i + 1);
    }
  }

  lemma ReadFlowsOne(consumed: seq<Entry>, queue: seq<Entry>, pending: seq<Entry>)
    requires DeviceFlows(consumed, queue, pending) && pending != []
    ensures Insert(queue, pending[0]) == queue + [pending[0]]
    ensures DeviceFlows(consumed, queue + [pending[0]], pending[1..])
  {
    assert pending[0] in pending && forall x :: x in pending[1..] ==> x in pending;
    InsertLast(queue, pending[0]);
  }

  lemma ReadsKeepFlow(w: World, stop: nat, s: State)
    requires WorldInv(w) && w.phase.Selected? && stop <= |w.pending|
    requires Shape(s) && s.history == w.reader.history && |s.queues| == |w.pending|
    requires forall d :: 0 <= d < |w.pending| ==>
               s.queues[d] == if d < stop && w.phase.ready[d] then Insert(w.reader.queues[d], w.pending[d][0]) else w.reader.queues[d]
    ensures Flows(Entries(s.history), s.queues, Unread(w, stop))
    ensures ReadBy(Entries(s.history), s.queues, w.phase.at)
    ensures stop == |w.pending| ==> Covered(s.queues, Unread(w, stop), w.phase.at)
  {
    forall d | 0 <= d < |w.pending|
      ensures DeviceFlows(Entries(s.history), s.queues[d], Unread(w, stop)[d]) && UpTo(s.queues[d], w.phase.at)
      ensures stop == |w.pending| ==> s.queues[d] != [] || From(Unread(w, stop)[d], w.phase.at)
    {
      assert DeviceFlows(Entries(s.history), w.reader.queues[d], w.pending[d]) && UpTo(w.reader.queues[d], w.phase.at);
      if d < stop && w.phase.ready[d] {
        ReadFlowsOne(Entries(s.history), w.reader.queues[d], w.pending[d]);
      }
    }
  }

  // ----- runs

  /** A select that timed out: nothing was pending, so the drain may run. */
  lemma TimeoutKeepsInv(cfg: Config, w: World, stop: nat)
    requires WorldInv(w) && Enabled(w, Finish(stop)) && true !in w.phase.ready
    ensures WorldInv(Next(cfg, w, Finish(stop)))
  {
    var s, pending, t := w.reader.(sleep := true), w.pending, w.phase.at;
    assert Unread(w, stop) == pending;
    DrainKeepsFlow(cfg, s, pending, t);
    ReadByLater(Drain(cfg, s), t, w.clock);
  }

  lemma ReadByLater(s: State, t: nat, later: nat)
    requires ReadBy(Entries(s.history), s.queues, t) && t <= later
    ensures ReadBy(Entries(s.history), s.queues, later)
  {
  }

  lemma UnreadUpTo(w: World, stop: nat, t: nat)
    requires Coherent(w) && w.phase.Selected?
    requires forall d :: 0 <= d < |w.pending| ==> UpTo(w.pending[d], t)
    ensures forall d :: 0 <= d < |w.pending| ==> UpTo(Unread(w, stop)[d], t)
  {
  }

  /** One round that reads: the ready devices before `stop`, then the eager policy unless a
      signal stopped the reads. */
  lemma ReadyRound(cfg: Config, w: World, stop: nat) returns (u: State)
    requires Coherent(w) && w.reader.running && Enabled(w, Finish(stop)) && true in w.phase.ready
    ensures Shape(u)
    ensures Next(cfg, w, Finish(stop))
         == World(if stop < |w.pending| then u else Eager(cfg, u), Unread(w, stop), w.clock, Idle)
    ensures u.history == w.reader.history && |u.queues| == |w.pending|
    ensures forall d :: 0 <= d < |w.pending| ==>
              u.queues[d] == if d < stop && w.phase.ready[d] then Insert(w.reader.queues[d], w.pending[d][0]) else w.reader.queues[d]
  {
    var results := Results(w, stop);
    u := ReadAll(w.reader, results, 0).0;
    ReadAllOutcome(w.reader, results, 0, stop);
    forall d | 0 <= d < |w.pending|
      ensures u.queues[d] == if d < stop && w.phase.ready[d] then Insert(w.reader.queues[d], w.pending[d][0]) else w.reader.queues[d]
    {
      ReadAllEffect(w.reader, results, 0, stop, d);
    }
    if stop == |w.pending| {
      u := u.(sleep := false);
    }
  }

  lemma ReadyKeepsInv(cfg: Config, w: World, stop: nat)
    requires WorldInv(w) && Enabled(w, Finish(stop)) && true in w.phase.ready
    ensures WorldInv(Next(cfg, w, Finish(stop)))
  {
    var u := ReadyRound(cfg, w, stop);
    ReadsKeepFlow(w, stop, u);
    UnreadUpTo(w, stop, w.clock);
    if stop < |w.pending| {
      ReadByLater(u, w.phase.at, w.clock);
      AssembleInv(u, Unread(w, stop), w.clock);
    } else {
      EagerKeepsFlow(cfg, u, Unread(w, stop), w.phase.at);
      ReadByLater(Eager(cfg, u), w.phase.at, w.clock);
      AssembleInv(Eager(cfg, u), Unread(w, stop), w.clock);
    }
  }

  lemma AssembleInv(s: State, pending: seq<seq<Entry>>, t: nat)
    requires Shape(s) && Flows(Entries(s.history), s.queues, pending) && ReadBy(Entries(s.history), s.queues, t)
    requires forall d :: 0 <= d < |pending| ==> UpTo(pending[d], t)
    ensures WorldInv(World(s, pending, t, Idle))
  {
  }

  lemma NextKeepsInv(cfg: Config, w: World, a: Action)
    requires WorldInv(w)
    ensures WorldInv(Next(cfg, w, a))
  {
    if Enabled(w, a) {
      match a
      case Advance(to) =>
        ReadByLater(w.reader, w.clock, to);
        forall d | 0 <= d < |w.pending| ensures UpTo(w.pending[d], to) { assert UpTo(w.pending[d], w.clock); }
      case Arrive(d, e) =>
        ArriveKeepsInv(cfg, w, d, e);
      case Select =>
        SelectKeepsInv(cfg, w);
      case Finish(stop) =>
        if true in w.phase.ready { ReadyKeepsInv(cfg, w, stop); } else { TimeoutKeepsInv(cfg, w, stop); }
    }
  }

  lemma ArriveFlowsOne(consumed: seq<Entry>, queue: seq<Entry>, pending: seq<Entry>, e: Entry)
    requires DeviceFlows(consumed, queue, pending)
    requires UpTo(consumed, Key(e)) && UpTo(queue, Key(e)) && UpTo(pending, Key(e))
    ensures DeviceFlows(consumed, queue, pending + [e]) && UpTo(pending + [e], Key(e))
  {
    forall i | 0 <= i < |pending| ensures Key(pending[i]) <= Key(e) {
      assert pending[i] in pending;
    }
  }

  lemma ArriveKeepsSample(pending: seq<seq<Entry>>, ready: seq<bool>, t: nat, d: nat, e: Entry)
    requires Sampled(pending, ready, t) && d < |pending| && t <= Key(e)
    ensures Sampled(pending[d := pending[d] + [e]], ready, t)
  {
  }

  lemma ArriveKeepsFlow(consumed: seq<Entry>, queues: seq<seq<Entry>>, pending: seq<seq<Entry>>, d: nat, e: Entry)
    requires Flows(consumed, queues, pending) && ReadBy(consumed, queues, Key(e)) && d < |queues|
    requires UpTo(pending[d], Key(e))
    ensures Flows(consumed, queues, pending[d := pending[d] + [e]]) && UpTo(pending[d] + [e], Key(e))
  {
    ArriveFlowsOne(consumed, queues[d], pending[d], e);
  }

  lemma ArriveKeepsInv(cfg: Config, w: World, d: nat, e: Entry)
    requires WorldInv(w) && Enabled(w, Arrive(d, e))
    ensures WorldInv(Next(cfg, w, Arrive(d, e)))
  {
    ArriveKeepsFlow(Entries(w.reader.history), w.reader.queues, w.pending, d, e);
    if w.phase.Selected? {
      ArriveKeepsSample(w.pending, w.phase.ready, w.phase.at, d, e);
    }
  }

  lemma SelectKeepsInv(cfg: Config, w: World)
    requires WorldInv(w) && Enabled(w, Select)
    ensures WorldInv(Next(cfg, w, Select))
  {
    forall d | 0 <= d < |w.pending| && w.pending[d] != []
      ensures Key(w.pending[d][0]) <= w.clock
    {
      assert UpTo(w.pending[d], w.clock) && w.pending[d][0] in w.pending[d];
    }
  }

  lemma {:induction false} StepsKeepInv(cfg: Config, n: nat, actions: seq<Action>)
    ensures WorldInv(Steps(cfg, n, actions))
  {
    if actions != [] {
      StepsKeepInv(cfg, n, actions[..|actions| - 1]);
      NextKeepsInv(cfg, Steps(cfg, n, actions[..|actions| - 1]), actions[|actions| - 1]);
    }
  }

  /** What the reader does in the world is a run on the inputs that the world gives it. */
  lemma {:induction false} WorldIsRun(cfg: Config, n: nat, actions: seq<Action>) returns (inputs: seq<Input>)
    ensures Inputs(n, inputs) && Steps(cfg, n, actions).reader == Run(cfg, n, inputs)
  {
    inputs := [];
    if actions != [] {
      var front, a := actions[..|actions| - 1], actions[|actions| - 1];
      var w := Steps(cfg, n, front);
      inputs := WorldIsRun(cfg, n, front);
      if a.Finish? && Enabled(w, a) {
        var input := if true in w.phase.ready then Ready(Results(w, a.stop)) else Timeout;
        assert (inputs + [input])[..|inputs|] == inputs;
        inputs := inputs + [input];
      }
    }
  }

  /** Over any run the reader consumes entries of all devices in the order of their stamps, and
      nothing still queued or pending is older than anything consumed. */
  lemma ConsumptionFollowsTime(cfg: Config, n: nat, actions: seq<Action>)
    ensures var w := Steps(cfg, n, actions);
            && Sorted(Entries(w.reader.history))
            && forall d :: 0 <= d < |w.pending| ==>
                 AllLE(Entries(w.reader.history), w.reader.queues[d]) && AllLE(Entries(w.reader.history), w.pending[d])
  {
    StepsKeepInv(cfg, n, actions);
  }
}
