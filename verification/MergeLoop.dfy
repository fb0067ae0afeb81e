/** The reader's merge loop (`read_log_lines` in logutil.c) on values: device queues, one
    function per source function, and what every run keeps. */
module MergeLoop {
  import opened Timestamps
  import opened EntryQueues

  /** `tail` is -t (0: off), `nonblock` is -d, `devCount` is g_dev_count. The device set-up can
      count a device that it drops from the list, so `devCount` is not the number of queues. */
  datatype Config = Config(tail: int, nonblock: bool, devCount: int)

  /** What goes to the output: a "beginning of" banner, or an entry given to `processBuffer`. */
  datatype Write = Banner(dev: nat) | Line(dev: nat, entry: Entry)

  /** An entry taken off its queue, printed or skipped. */
  datatype Consumed = Consumed(dev: nat, entry: Entry, shown: bool)

  datatype State = State(
    queues: seq<seq<Entry>>,
    printed: seq<bool>,
    queuedLines: int,
    sleep: bool,
    running: bool,
    writes: seq<Write>,
    // history: what each device delivered, and what was consumed
    arrived: seq<seq<Entry>>,
    history: seq<Consumed>)

  function Start(n: nat): State {
    State(seq(n, _ => []), seq(n, _ => false), 0, false, true, [], seq(n, _ => []), [])
  }

  predicate Shape(s: State) {
    |s.queues| == |s.printed| == |s.arrived|
  }

  // ----- choosing, consuming, receiving

  /** `chooseFirst`: the first device whose head is least, or -1. */
  function First(qs: seq<seq<Entry>>): (f: int)
    ensures -1 <= f < |qs|
    ensures f == -1 <==> forall d :: 0 <= d < |qs| ==> qs[d] == []
    ensures f >= 0 ==> qs[f] != []
    ensures f >= 0 ==> forall d :: 0 <= d < |qs| && qs[d] != [] ==> Key(qs[f][0]) <= Key(qs[d][0])
    ensures f >= 0 ==> forall d :: 0 <= d < f && qs[d] != [] ==> Key(qs[f][0]) < Key(qs[d][0])
  {
    if qs == [] then -1 else
      var n := |qs| - 1;
      var f := First(qs[..n]);
      if qs[n] != [] && (f == -1 || Key(qs[n][0]) < Key(qs[f][0])) then n else f
  }

  /** What `maybePrintStart` adds to the output. */
  function Opened(cfg: Config, ws: seq<Write>, d: nat, printed: bool): seq<Write> {
    if !printed && cfg.devCount > 1 then ws + [Banner(d)] else ws
  }

  /** `printNextEntry` (shown) or `skipNextEntry` (not shown), with the caller's `--queued_lines`. */
  function Pop(cfg: Config, s: State, d: nat, shown: bool): (t: State)
    requires Shape(s) && d < |s.queues| && s.queues[d] != []
    ensures Shape(t)
  {
    var e := s.queues[d][0];
    var ws := Opened(cfg, s.writes, d, s.printed[d]);
    State(s.queues[d := s.queues[d][1..]], s.printed[d := true], s.queuedLines - 1, s.sleep, s.running,
          if shown then ws + [Line(d, e)] else ws,
          s.arrived, s.history + [Consumed(d, e, shown)])
  }

  /** A successful read: `enqueue` and `++queued_lines`. */
  function Receive(s: State, d: nat, e: Entry): (t: State)
    requires Shape(s) && d < |s.queues|
    ensures Shape(t)
  {
    State(s.queues[d := Insert(s.queues[d], e)], s.printed, s.queuedLines + 1, s.sleep, s.running,
          s.writes, s.arrived[d := s.arrived[d] + [e]], s.history)
  }

  // ----- the two draining policies

  /** After a select timeout: empty the queues, skipping while more than `tail` are queued. */
  function Drain(cfg: Config, s: State): (t: State)
    requires Shape(s)
    ensures Shape(t) && |t.queues| == |s.queues|
    decreases |Flatten(s.queues)|
  {
    var d := First(s.queues);
    if d == -1 then s else
      FlattenPop(s.queues, d);
      Drain(cfg, Pop(cfg, s, d, cfg.tail == 0 || s.queuedLines <= cfg.tail))
  }

  /** After reading: consume until the least head is the last of its queue. */
  function Eager(cfg: Config, s: State): (t: State)
    requires Shape(s)
    ensures Shape(t) && |t.queues| == |s.queues|
    decreases |Flatten(s.queues)|
  {
    if !(cfg.tail == 0 || s.queuedLines > cfg.tail) then s else
      var d := First(s.queues);
      if d == -1 || |s.queues[d]| == 1 then s else
        FlattenPop(s.queues, d);
        Eager(cfg, Pop(cfg, s, d, cfg.tail == 0))
  }

  // ----- one round of the loop

  /** What the round's read of one device gives: not ready, one entry, or an errno. */
  datatype Read = NotReady | Got(entry: Entry) | Eintr | Eagain | Fatal

  /** What `select` gives (an EINTR there is retried inside the round). */
  datatype Input = SelectError | Timeout | Ready(results: seq<Read>)

  /** How the loop over the devices ends: at the list's end or by `break`, by `goto next`, by exit. */
  datatype Outcome = Completed | Interrupted | Died

  function ReadAll(s: State, results: seq<Read>, i: nat): (r: (State, Outcome))
    requires Shape(s) && |results| == |s.queues| && i <= |results|
    ensures Shape(r.0) && |r.0.queues| == |s.queues|
    decreases |results| - i
  {
    if i == |results| then (s, Completed)
    else match results[i]
      case NotReady => ReadAll(s, results, i + 1)
      case Got(e) => ReadAll(Receive(s, i, e), results, i + 1)
      case Eintr => (s, Interrupted)
      case Eagain => (s, Completed)
      case Fatal => (s, Died)
  }

  predicate Fits(s: State, input: Input) {
    Shape(s) && (input.Ready? ==> |input.results| == |s.queues|)
  }

  function Round(cfg: Config, s: State, input: Input): (t: State)
    requires Fits(s, input)
    ensures Shape(t) && |t.queues| == |s.queues|
  {
    if !s.running then s
    else match input
      case SelectError => s
      case Timeout => Drain(cfg, s.(sleep := true)).(running := !cfg.nonblock)
      case Ready(results) =>
        var (t, outcome) := ReadAll(s, results, 0);
        match outcome
          case Completed => Eager(cfg, t.(sleep := false))
          case Interrupted => t
          case Died => t.(running := false)
  }

  predicate Inputs(n: nat, inputs: seq<Input>) {
    forall i :: 0 <= i < |inputs| && inputs[i].Ready? ==> |inputs[i].results| == n
  }

  /** A whole run over n devices. */
  function Run(cfg: Config, n: nat, inputs: seq<Input>): (s: State)
    requires Inputs(n, inputs)
    ensures Shape(s) && |s.queues| == n
  {
    if inputs == [] then Start(n)
    else
      Round(cfg, Run(cfg, n, inputs[..|inputs| - 1]), inputs[|inputs| - 1])
  }
}
