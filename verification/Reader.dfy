/** The reader as the program has it: linked queues spliced in place, device records updated by
    the loop, and the output that the entries go to. Each method is tied to the function of
    MergeLoop that specifies it, and the output to the writes of that function. */
module Reader {
  import opened Emission
  import opened Timestamps
  import opened EntryQueues
  import opened Sequences
  import opened MergeLoop
  import Filters
  import Formatter
  import L = LogOutput
  import R = Rotation
  import Wire

  /** `struct queued_entry_t`. */
  class QueuedEntry {
    const entry: Entry
    var next: QueuedEntry?
    ghost const owner: nat // the device whose queue it is in

    constructor (entry: Entry, ghost owner: nat)
      ensures this.entry == entry && next == null && this.owner == owner
    {
      this.entry := entry;
      this.owner := owner;
      next := null;
    }
  }

  /** `nodes` is the chain that starts at `head`. */
  ghost predicate Linked(head: QueuedEntry?, nodes: seq<QueuedEntry>)
    reads nodes
  {
    && head == (if nodes == [] then null else nodes[0])
    && (forall i {:trigger nodes[i].next} :: 0 <= i < |nodes| - 1 ==> nodes[i].next == nodes[i + 1])
    && (nodes != [] ==> nodes[|nodes| - 1].next == null)
    && (forall i, j :: 0 <= i < j < |nodes| ==> nodes[i] != nodes[j])
  }

  lemma SplicedIsLinked(head: QueuedEntry?, nodes: seq<QueuedEntry>, i: nat, entry: QueuedEntry)
    requires i <= |nodes| && entry !in nodes
    requires head == if i == 0 then entry else nodes[0]
    requires entry.next == if i < |nodes| then nodes[i] else null
    requires i > 0 ==> nodes[i - 1].next == entry
    requires forall j {:trigger nodes[j].next} :: 0 <= j < |nodes| - 1 && j != i - 1 ==> nodes[j].next == nodes[j + 1]
    requires i < |nodes| ==> nodes[|nodes| - 1].next == null
    requires forall j, k :: 0 <= j < k < |nodes| ==> nodes[j] != nodes[k]
    ensures Linked(head, nodes[..i] + [entry] + nodes[i..])
  {
    var longer := nodes[..i] + [entry] + nodes[i..];
    forall j | 0 <= j < |longer| - 1 ensures longer[j].next == longer[j + 1] {
      if j < i {
        assert longer[j] == nodes[j];
      } else if j > i {
        assert longer[j] == nodes[j - 1];
      }
    }
  }

  ghost function EntriesOf(nodes: seq<QueuedEntry>): seq<Entry> {
    seq(|nodes|, i requires 0 <= i < |nodes| => nodes[i].entry)
  }

  lemma SplicedMembers(nodes: seq<QueuedEntry>, i: nat, entry: QueuedEntry)
    requires i <= |nodes|
    ensures forall x :: x in nodes[..i] + [entry] + nodes[i..] ==> x == entry || x in nodes
  {
  }

  lemma SplicedEntries(nodes: seq<QueuedEntry>, i: nat, entry: QueuedEntry)
    requires i <= |nodes|
    requires forall j :: 0 <= j < i ==> Key(nodes[j].entry) <= Key(entry.entry)
    requires i < |nodes| ==> Key(entry.entry) < Key(nodes[i].entry)
    ensures EntriesOf(nodes[..i] + [entry] + nodes[i..]) == Insert(EntriesOf(nodes), entry.entry)
  {
    InsertAt(EntriesOf(nodes), entry.entry, i);
  }

  /** `struct log_device_t`; `id` is its place in the device list and stands for its name. */
  class LogDevice {
    const id: nat
    ghost const sound: Entry -> bool // what may be queued
    var printed: bool
    var queue: QueuedEntry?
    ghost var nodes: seq<QueuedEntry>
    ghost var contents: seq<Entry>

    constructor (id: nat, ghost sound: Entry -> bool)
      ensures this.id == id && this.sound == sound && !printed && contents == [] && Valid()
    {
      this.id, this.sound := id, sound;
      printed, queue, nodes, contents := false, null, [], [];
    }

    ghost predicate Valid()
      reads `queue, `nodes, `contents, nodes
    {
      Linked(queue, nodes) && contents == EntriesOf(nodes) && forall x :: x in nodes ==> x.owner == id && sound(x.entry)
    }

    /** The walk of `enqueue`: past every entry that is not later than the new one. */
    method FindPlace(entry: QueuedEntry) returns (prev: QueuedEntry?, cur: QueuedEntry?, ghost i: nat)
      requires Valid()
      ensures i <= |nodes|
      ensures prev == (if i > 0 then nodes[i - 1] else null) && cur == (if i < |nodes| then nodes[i] else null)
      ensures forall j :: 0 <= j < i ==> Key(nodes[j].entry) <= Key(entry.entry)
      ensures i < |nodes| ==> Key(entry.entry) < Key(nodes[i].entry)
    {
      prev, cur, i := null, queue, 0;
      while cur != null && Cmp(entry.entry, cur.entry) >= 0
        invariant i <= |nodes|
        invariant cur == if i < |nodes| then nodes[i] else null
        invariant prev == if i > 0 then nodes[i - 1] else null
        invariant forall j :: 0 <= j < i ==> Key(nodes[j].entry) <= Key(entry.entry)
        decreases |nodes| - i
      {
        CmpIsKeyOrder(entry.entry, cur.entry);
        prev, cur, i := cur, cur.next, i + 1;
      }
      if cur != null {
        CmpIsKeyOrder(entry.entry, cur.entry);
      }
    }

    /** The links around the new entry, where place i has been found. */
    method Splice(entry: QueuedEntry, prev: QueuedEntry?, cur: QueuedEntry?, ghost i: nat)
      requires Linked(queue, nodes) && nodes != [] && entry !in nodes && i <= |nodes|
      requires prev == (if i > 0 then nodes[i - 1] else null) && cur == (if i < |nodes| then nodes[i] else null)
      modifies `queue, nodes, entry
      ensures Linked(queue, nodes[..i] + [entry] + nodes[i..])
    {
      entry.next := cur;
      if prev == null {
        queue := entry;
      } else {
        prev.next := entry;
      }
      SplicedIsLinked(queue, nodes, i, entry);
    }

    /** Splices the new entry in before the first later one. */
    method Enqueue(entry: QueuedEntry)
      requires Valid() && entry !in nodes && entry.next == null && entry.owner == id && sound(entry.entry)
      modifies `queue, `nodes, `contents, nodes, entry
      ensures Valid() && contents == Insert(old(contents), entry.entry)
      ensures forall x :: x in nodes ==> x == entry || x in old(nodes)
    {
      if queue == null {
        queue, nodes, contents := entry, [entry], [entry.entry];
      } else {
        var prev, cur, i := FindPlace(entry);
        Splice(entry, prev, cur, i);
        SplicedEntries(nodes, i, entry);
        SplicedMembers(nodes, i, entry);
        nodes := nodes[..i] + [entry] + nodes[i..];
        contents := Insert(contents, entry.entry);
      }
    }

    /** Takes the head off the queue. */
    method PopHead()
      requires Valid() && contents != []
      modifies `queue, `nodes, `contents
      ensures Valid() && contents == old(contents)[1..] && nodes == old(nodes)[1..]
    {
      queue := queue.next;
      nodes, contents := nodes[1..], contents[1..];
    }
  }

  /** Device i is as the state says, and its queue is made of nodes of `repr`. */
  ghost predicate Mirrors(dev: LogDevice, i: nat, queue: seq<Entry>, printed: bool, repr: set<QueuedEntry>)
    reads dev, repr
  {
    && dev.id == i && dev.printed == printed && dev.contents == queue
    && (forall x :: x in dev.nodes ==> x in repr) && dev.Valid()
  }

  ghost predicate AllMirror(devices: seq<LogDevice>, queues: seq<seq<Entry>>, printed: seq<bool>,
                            repr: set<QueuedEntry>, sound: Entry -> bool)
    requires |devices| == |queues| == |printed|
    reads devices, repr
  {
    forall i {:trigger devices[i]} :: 0 <= i < |devices| ==>
      Mirrors(devices[i], i, queues[i], printed[i], repr) && devices[i].sound == sound
  }

  /** The queue's part of consuming, with the caller's decrement. */
  function HeadTaken(s: State, d: nat, shown: bool): State
    requires Shape(s) && d < |s.queues| && s.queues[d] != []
  {
    State(s.queues[d := s.queues[d][1..]], s.printed, s.queuedLines - 1, s.sleep, s.running,
          s.writes, s.arrived, s.history + [Consumed(d, s.queues[d][0], shown)])
  }

  /** The part of `maybePrintStart`. */
  function StartPrinted(cfg: Config, s: State, d: nat): State
    requires Shape(s) && d < |s.queues|
  {
    State(s.queues, s.printed[d := true], s.queuedLines, s.sleep, s.running,
          Opened(cfg, s.writes, d, s.printed[d]), s.arrived, s.history)
  }

  /** Together they are MergeLoop's step. */
  lemma PopInParts(cfg: Config, s: State, d: nat)
    requires Shape(s) && d < |s.queues| && s.queues[d] != []
    ensures var t, line := StartPrinted(cfg, s, d), [Line(d, s.queues[d][0])];
            && HeadTaken(t, d, false) == Pop(cfg, s, d, false)
            && HeadTaken(StartPrinted(cfg, t.(writes := t.writes + line), d), d, true) == Pop(cfg, s, d, true)
  {
    assert s.printed[d := true][d := true] == s.printed[d := true];
  }

  /** The variables of `read_log_lines` and the globals it uses. `running` turns false where the
      program exits. `writes` lists the calls that write to the output, and `system` gives the
      effect of each. `state` is the value the functions of MergeLoop work on. */
  class LogReader {
    const cfg: Config
    const devices: seq<LogDevice>
    const output: L.LogOutput
    const logFormat: Filters.LogFormat
    const format: Formatter.Format
    const header: Entry -> string // what snprintf makes of an entry
    const names: nat -> string
    const system: nat -> Effect
    ghost const sound: Entry -> bool // entries whose payload a writer can have built
    var queuedLines: int
    var sleep: bool
    var running: bool
    ghost var writes: seq<Write>
    var writeCount: nat
    ghost var state: State
    ghost var repr: set<QueuedEntry>
    ghost const origin: Origin
    ghost const filters: Filters.FilterSet
    ghost const texts: Texts
    // stands for Agrees(origin, texts, system, ...) where its meaning does not matter
    ghost const follows: (R.Output, string, seq<Write>) -> bool

    /** The output has handled exactly the writes so far. */
    ghost predicate Emitted()
      reads `writes, `writeCount, output, logFormat
    {
      && writeCount == |writes| && output.Valid() && follows(output.state, output.stdout, writes)
      && output.cfg == origin.cfg && output.toFile == origin.toFile && logFormat.Abs() == filters
      && (forall o, out, ws {:trigger Agrees(origin, texts, system, o, out, ws)} ::
            follows(o, out, ws) <==> Agrees(origin, texts, system, o, out, ws))
      && texts == ProgramTexts(filters, format, header, names)
      && (forall e: Entry {:trigger Wire.WellFormed(e.payload)} ::
            sound(e) ==> Wire.WellFormed(e.payload) && Formatter.NulFree(header(e)))
    }

    /** The device list is as the state says. */
    ghost predicate Lists()
      reads `state, `repr, devices, repr
    {
      && Shape(state) && |state.queues| == |devices|
      && AllMirror(devices, state.queues, state.printed, repr, sound)
    }

    /** So are the variables of the loop. */
    ghost predicate Counted()
      reads `state, `queuedLines, `sleep, `running
    {
      state.queuedLines == queuedLines && state.sleep == sleep && state.running == running
    }

    /** And the output. */
    ghost predicate Flushed()
      reads `state, `writes, `writeCount, output, logFormat
    {
      state.writes == writes && Emitted()
    }

    ghost predicate Valid()
      reads this, devices, repr, output, logFormat
    {
      Lists() && Counted() && Flushed()
    }

    constructor (cfg: Config, devices: seq<LogDevice>, output: L.LogOutput, logFormat: Filters.LogFormat,
                 format: Formatter.Format, header: Entry -> string, names: nat -> string, system: nat -> Effect,
                 ghost sound: Entry -> bool)
      requires forall i :: 0 <= i < |devices| ==> devices[i].id == i && !devices[i].printed && devices[i].contents == []
      requires forall i :: 0 <= i < |devices| ==> devices[i].Valid() && devices[i].sound == sound
      requires output.Valid() && forall e :: Formatter.NulFree(header(e))
      requires forall e :: sound(e) ==> Wire.WellFormed(e.payload)
      ensures this.cfg == cfg && this.devices == devices && this.output == output && this.sound == sound
      ensures origin == Origin(output.cfg, output.toFile, output.state, output.stdout)
      ensures texts == ProgramTexts(logFormat.Abs(), format, header, names) && this.system == system
      ensures Valid() && repr == {} && state == Start(|devices|)
    {
      this.cfg, this.devices, this.output, this.logFormat := cfg, devices, output, logFormat;
      this.format, this.header, this.names, this.system, this.sound := format, header, names, system, sound;
      queuedLines, sleep, running, writes, writeCount := 0, false, true, [], 0;
      state, repr, filters := Start(|devices|), {}, logFormat.Abs();
      ghost var start := Origin(output.cfg, output.toFile, output.state, output.stdout);
      ghost var said := ProgramTexts(logFormat.Abs(), format, header, names);
      origin, texts := start, said;
      follows := (o, out, ws) => Agrees(start, said, system, o, out, ws);
      new;
      AgreesAtOrigin(origin, texts, system);
      assert forall i :: 0 <= i < |devices| ==> devices[i].nodes == [] by {
        assert forall i :: 0 <= i < |devices| ==> |devices[i].contents| == |devices[i].nodes|;
      }
    }

    ghost predicate AreSound(results: seq<Read>) {
      forall i :: 0 <= i < |results| && results[i].Got? ==> sound(results[i].entry)
    }

    ghost predicate Has(dev: LogDevice) {
      dev.id < |devices| && devices[dev.id] == dev
    }

    lemma FirstStep(qs: seq<seq<Entry>>, i: nat)
      requires i < |qs|
      ensures var f := First(qs[..i]);
              First(qs[..i + 1]) == if qs[i] != [] && (f == -1 || Key(qs[i][0]) < Key(qs[f][0])) then i else f
    {
      assert qs[..i + 1][..i] == qs[..i];
    }

    /** The first device whose head is least. */
    method ChooseFirst() returns (first: LogDevice?)
      requires Lists()
      ensures first == null <==> First(state.queues) == -1
      ensures first != null ==> Has(first) && first.id == First(state.queues)
    {
      first := null;
      for i := 0 to |devices|
        invariant first == null <==> First(state.queues[..i]) == -1
        invariant first != null ==> Has(first) && first.id == First(state.queues[..i])
      {
        var dev := devices[i];
        FirstStep(state.queues, i);
        assert dev.Valid();
        if first != null {
          assert first.Valid() && first.nodes != [];
          if dev.queue != null {
            CmpIsKeyOrder(dev.queue.entry, first.queue.entry);
          }
        }
        if dev.queue != null && (first == null || Cmp(dev.queue.entry, first.queue.entry) < 0) {
          first := dev;
        }
      }
      assert state.queues[..|devices|] == state.queues;
    }

    /** Writes the banner of device d. */
    method EmitBanner(d: nat)
      requires Emitted()
      modifies `writes, `writeCount, output
      ensures Emitted() && writes == old(writes) + [Banner(d)]
    {
      ghost var o, out := output.state, output.stdout;
      assert Agrees(origin, texts, system, o, out, writes);
      output.WriteBanner(BannerLine(names(d)), system(writeCount).taken);
      AgreesNext(origin, texts, system, o, out, writes, Banner(d), output.state, output.stdout);
      writes, writeCount := writes + [Banner(d)], writeCount + 1;
    }

    /** `processBuffer` on an entry of device d. */
    method EmitLine(d: nat, entry: Entry)
      requires Emitted() && sound(entry)
      modifies `writes, `writeCount, output
      ensures Emitted() && writes == old(writes) + [Line(d, entry)]
    {
      ghost var o, out := output.state, output.stdout;
      assert Agrees(origin, texts, system, o, out, writes) && Wire.WellFormed(entry.payload);
      var effect := system(writeCount);
      output.ProcessBuffer(logFormat, format, header(entry), entry.payload,
                           if effect.error then -1 else effect.taken, effect.fails);
      AgreesNext(origin, texts, system, o, out, writes, Line(d, entry), output.state, output.stdout);
      writes, writeCount := writes + [Line(d, entry)], writeCount + 1;
    }

    method MarkPrinted(dev: LogDevice)
      requires Lists() && Has(dev)
      modifies `state, dev`printed
      ensures Lists() && dev.printed
      ensures state == old(state).(printed := old(state).printed[dev.id := true])
    {
      dev.printed := true;
      state := state.(printed := state.printed[dev.id := true]);
    }

    method MaybePrintStart(dev: LogDevice)
      requires Lists() && Flushed() && Has(dev)
      modifies `writes, `writeCount, `state, dev`printed, output
      ensures Lists() && Flushed() && dev.printed
      ensures state == StartPrinted(cfg, old(state), dev.id)
    {
      if dev.printed {
        assert state.printed[dev.id := true] == state.printed;
        return;
      }
      MarkPrinted(dev);
      if cfg.devCount > 1 {
        EmitBanner(dev.id);
        state := StartPrinted(cfg, old(state), dev.id);
      }
    }

    /** The head of the queue is gone; `shown` records for the history whether it was printed. */
    method TakeHead(dev: LogDevice, ghost shown: bool)
      requires Lists() && Has(dev) && state.queues[dev.id] != []
      modifies `state, dev`queue, dev`nodes, dev`contents
      ensures Lists() && state == HeadTaken(old(state), dev.id, shown)
    {
      state := HeadTaken(state, dev.id, shown);
      dev.PopHead();
    }

    method SkipNextEntry(dev: LogDevice, ghost shown: bool)
      requires Lists() && Flushed() && Has(dev) && state.queues[dev.id] != []
      modifies `writes, `writeCount, `state, dev, output
      ensures Lists() && Flushed() && state == HeadTaken(StartPrinted(cfg, old(state), dev.id), dev.id, shown)
    {
      MaybePrintStart(dev);
      TakeHead(dev, shown);
    }

    method PrintNextEntry(dev: LogDevice)
      requires Lists() && Flushed() && Has(dev) && state.queues[dev.id] != []
      modifies `writes, `writeCount, `state, dev, output
      ensures Lists() && Flushed() && state == Pop(cfg, old(state), dev.id, true)
    {
      MaybePrintStart(dev);
      assert dev.Valid();
      EmitLine(dev.id, dev.queue.entry);
      state := state.(writes := writes);
      PopInParts(cfg, old(state), dev.id);
      SkipNextEntry(dev, true);
    }

    /** One turn of a draining loop, with its `--queued_lines`. */
    method Consume(dev: LogDevice, shown: bool)
      requires Valid() && Has(dev) && state.queues[dev.id] != []
      modifies `writes, `writeCount, `state, `queuedLines, dev, output
      ensures Valid() && state == Pop(cfg, old(state), dev.id, shown)
    {
      if shown {
        PrintNextEntry(dev);
      } else {
        PopInParts(cfg, state, dev.id);
        SkipNextEntry(dev, false);
      }
      queuedLines := queuedLines - 1;
    }

    /** One turn of the drain: the entry of `first`, then the next choice. */
    method DrainOne(first: LogDevice) returns (next: LogDevice?)
      requires Valid() && Has(first) && first.id == First(state.queues)
      modifies `writes, `writeCount, `state, `queuedLines, first, output
      ensures Valid() && Drain(cfg, state) == Drain(cfg, old(state))
      ensures |Flatten(state.queues)| < |Flatten(old(state).queues)|
      ensures next == null <==> First(state.queues) == -1
      ensures next != null ==> Has(next) && next.id == First(state.queues)
    {
      FlattenPop(state.queues, first.id);
      Consume(first, cfg.tail == 0 || queuedLines <= cfg.tail);
      next := ChooseFirst();
    }

    /** The loop after a select timeout. */
    method DrainAll()
      requires Valid()
      modifies `writes, `writeCount, `state, `queuedLines, devices, output
      ensures Valid() && state == Drain(cfg, old(state))
    {
      var first := ChooseFirst();
      while first != null
        invariant Valid() && Drain(cfg, state) == Drain(cfg, old(state))
        invariant first == null <==> First(state.queues) == -1
        invariant first != null ==> Has(first) && first.id == First(state.queues)
        decreases |Flatten(state.queues)|
      {
        first := DrainOne(first);
      }
    }

    /** One turn of the eager loop; `done` is its `break`. */
    method EagerOne() returns (done: bool)
      requires Valid() && (cfg.tail == 0 || queuedLines > cfg.tail)
      modifies `writes, `writeCount, `state, `queuedLines, devices, output
      ensures Valid() && Eager(cfg, state) == Eager(cfg, old(state))
      ensures if done then Eager(cfg, state) == state else |Flatten(state.queues)| < |Flatten(old(state).queues)|
    {
      var first := ChooseFirst();
      if first == null {
        return true;
      }
      assert first.Valid();
      if first.queue.next == null {
        return true;
      }
      FlattenPop(state.queues, first.id);
      Consume(first, cfg.tail == 0);
      return false;
    }

    /** The loop after a select that found something. */
    method DrainEager()
      requires Valid()
      modifies `writes, `writeCount, `state, `queuedLines, devices, output
      ensures Valid() && state == Eager(cfg, old(state))
    {
      while cfg.tail == 0 || queuedLines > cfg.tail
        invariant Valid() && Eager(cfg, state) == Eager(cfg, old(state))
        decreases |Flatten(state.queues)|
      {
        var done := EagerOne();
        if done {
          break;
        }
      }
    }

    method SetSleep(value: bool)
      requires Valid()
      modifies `sleep, `state
      ensures Valid() && state == old(state).(sleep := value)
    {
      sleep, state := value, state.(sleep := value);
    }

    /** The program exits. */
    method Exit()
      requires Valid()
      modifies `running, `state
      ensures Valid() && state == old(state).(running := false)
    {
      running, state := false, state.(running := false);
    }

    /** `enqueue` touches one device's nodes only. */
    method EnqueueAt(dev: LogDevice, entry: QueuedEntry)
      requires Lists() && Has(dev) && entry !in repr && entry.next == null && entry.owner == dev.id && sound(entry.entry)
      modifies `repr, dev, repr, entry
      ensures repr == old(repr) + {entry}
      ensures forall i {:trigger devices[i]} :: 0 <= i < |devices| ==>
                Mirrors(devices[i], i, Receive(state, dev.id, entry.entry).queues[i], state.printed[i], repr)
    {
      assert forall x :: x in dev.nodes ==> x.owner == dev.id;
      dev.Enqueue(entry);
      repr := repr + {entry};
      forall i | 0 <= i < |devices| && i != dev.id
        ensures Mirrors(devices[i], i, state.queues[i], state.printed[i], repr)
      {
        var other := devices[i];
        assert old(Mirrors(other, i, state.queues[i], state.printed[i], repr));
        forall k | 0 <= k < |other.nodes| ensures other.nodes[k].next == old(other.nodes[k].next) {
          assert other.nodes[k] in other.nodes && other.nodes[k].owner == i;
        }
        assert Linked(other.queue, other.nodes);
      }
      assert Mirrors(dev, dev.id, Insert(state.queues[dev.id], entry.entry), state.printed[dev.id], repr);
    }

    method ReadEntry(dev: LogDevice, e: Entry)
      requires Lists() && Counted() && Has(dev) && sound(e)
      modifies `state, `queuedLines, `repr, dev, repr
      ensures Lists() && Counted() && fresh(repr - old(repr))
      ensures state == Receive(old(state), dev.id, e)
    {
      var entry := new QueuedEntry(e, dev.id);
      EnqueueAt(dev, entry);
      queuedLines := queuedLines + 1;
      state := Receive(state, dev.id, e);
    }

    /** The loop over the devices that reads the ready ones. */
    method ReadDevices(results: seq<Read>) returns (outcome: Outcome)
      requires Lists() && Counted() && |results| == |devices| && AreSound(results)
      modifies `state, `queuedLines, `repr, devices, repr
      ensures Lists() && Counted() && state.writes == old(state).writes && fresh(repr - old(repr))
      ensures (state, outcome) == ReadAll(old(state), results, 0)
    {
      for i := 0 to |devices|
        invariant Lists() && Counted() && state.writes == old(state).writes && fresh(repr - old(repr))
        invariant ReadAll(state, results, i) == ReadAll(old(state), results, 0)
      {
        match results[i]
        case NotReady =>
        case Got(e) => ReadEntry(devices[i], e);
        case Eintr => return Interrupted;
        case Eagain => return Completed;
        case Fatal => return Died;
      }
      return Completed;
    }

    /** The branch for a select timeout. */
    method TimeoutRound()
      requires Valid() && running
      modifies `sleep, `running, `writes, `writeCount, `state, `queuedLines, devices, output
      ensures Valid()
      ensures state == Round(cfg, old(state), Timeout)
    {
      SetSleep(true);
      DrainAll();
      if cfg.nonblock {
        Exit();
      }
    }

    /** The branch for ready devices. */
    method ReadyRound(results: seq<Read>)
      requires Valid() && running && |results| == |devices| && AreSound(results)
      modifies `sleep, `running, `writes, `writeCount, `state, `queuedLines, `repr, devices, repr, output
      ensures Valid() && fresh(repr - old(repr))
      ensures state == Round(cfg, old(state), Ready(results))
    {
      var outcome := ReadDevices(results);
      match outcome
      case Interrupted =>
      case Died =>
        Exit();
      case Completed =>
        SetSleep(false);
        DrainEager();
    }

    /** One turn of `while (1)`. */
    method OneRound(input: Input)
      requires Valid() && running && (input.Ready? ==> |input.results| == |devices| && AreSound(input.results))
      modifies this, devices, repr, output
      ensures Valid() && fresh(repr - old(repr))
      ensures state == Round(cfg, old(state), input)
    {
      match input
      case SelectError =>
      case Timeout => TimeoutRound();
      case Ready(results) => ReadyRound(results);
    }

    /** `read_log_lines` for as many rounds as there are inputs, or until the program exits. */
    method ReadLogLines(inputs: seq<Input>)
      requires Valid() && repr == {} && state == Start(|devices|) && Inputs(|devices|, inputs)
      requires forall i :: 0 <= i < |inputs| && inputs[i].Ready? ==> AreSound(inputs[i].results)
      modifies this, devices, output
      ensures Valid() && state == Run(cfg, |devices|, inputs)
      ensures Agrees(origin, texts, system, output.state, output.stdout, state.writes)
    {
      for i := 0 to |inputs|
        invariant Valid() && fresh(repr)
        invariant state == Run(cfg, |devices|, inputs[..i])
      {
        assert inputs[..i + 1][..i] == inputs[..i];
        if running {
          OneRound(inputs[i]);
        }
      }
      assert inputs[..|inputs|] == inputs;
    }
  }
}
