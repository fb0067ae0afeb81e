/** What every run of the merge loop keeps, for any inputs: conservation, counting, sorted
    queues, per-device order, and the banner discipline. */
module MergeInvariants {
  import opened Timestamps
  import opened EntryQueues
  import opened MergeLoop

  // ----- projections of the history and of the output

  datatype Pick = Printed | Skipped | FromDevice(d: nat)

  predicate Picks(p: Pick, c: Consumed) {
    match p
    case Printed => c.shown
    case Skipped => !c.shown
    case FromDevice(d) => c.dev == d
  }

  function Project(h: seq<Consumed>, p: Pick): seq<Consumed> {
    if h == [] then []
    else Project(h[..|h| - 1], p) + (if Picks(p, h[|h| - 1]) then [h[|h| - 1]] else [])
  }

  lemma ProjectAppend(h: seq<Consumed>, c: Consumed, p: Pick)
    ensures Project(h + [c], p) == Project(h, p) + (if Picks(p, c) then [c] else [])
  {
    assert (h + [c])[..|h|] == h;
  }

  function Entries(cs: seq<Consumed>): seq<Entry> {
    seq(|cs|, i requires 0 <= i < |cs| => cs[i].entry)
  }

  lemma EntriesAppend(cs: seq<Consumed>, c: Consumed)
    ensures Entries(cs + [c]) == Entries(cs) + [c.entry]
  {
  }

  function Count(h: seq<Consumed>, p: Pick): multiset<Entry> {
    multiset(Entries(Project(h, p)))
  }

  lemma CountAppend(h: seq<Consumed>, c: Consumed, p: Pick)
    ensures Count(h + [c], p) == Count(h, p) + (if Picks(p, c) then multiset{c.entry} else multiset{})
  {
    ProjectAppend(h, c, p);
    EntriesAppend(Project(h, p), c);
    assert Project(h, p) + [] == Project(h, p);
  }

  /** The lines of the output, as the consumptions they show. */
  function Lines(ws: seq<Write>): seq<Consumed> {
    if ws == [] then []
    else Lines(ws[..|ws| - 1])
         + match ws[|ws| - 1] case Line(d, e) => [Consumed(d, e, true)] case Banner(_) => []
  }

  lemma LinesAppend(ws: seq<Write>, w: Write)
    ensures Lines(ws + [w]) == Lines(ws) + match w case Line(d, e) => [Consumed(d, e, true)] case Banner(_) => []
  {
    assert (ws + [w])[..|ws|] == ws;
  }

  // ----- the invariant

  ghost predicate Ordered(s: State) {
    forall d :: 0 <= d < |s.queues| ==> Sorted(s.queues[d])
  }

  predicate Counted(s: State) {
    s.queuedLines == |Flatten(s.queues)|
  }

  /** Entries read = printed + skipped + still queued. */
  ghost predicate Conserved(s: State) {
    multiset(Flatten(s.arrived))
    == Count(s.history, Printed) + Count(s.history, Skipped) + multiset(Flatten(s.queues))
  }

  /** A device that delivers nondecreasing stamps is consumed in arrival order. */
  ghost predicate InArrivalOrder(s: State)
    requires Shape(s)
  {
    forall d :: 0 <= d < |s.queues| && Sorted(s.arrived[d]) ==>
      Entries(Project(s.history, FromDevice(d))) + s.queues[d] == s.arrived[d]
  }

  /** The lines written are the entries consumed as printed, in that order. */
  predicate LinesAreThePrinted(s: State) {
    Lines(s.writes) == Project(s.history, Printed)
  }

  ghost predicate BannersOnce(ws: seq<Write>) {
    forall i, j :: 0 <= i < j < |ws| && ws[i].Banner? ==> ws[i] != ws[j]
  }

  ghost predicate LinesFollowBanners(ws: seq<Write>) {
    forall j :: 0 <= j < |ws| && ws[j].Line? ==> Banner(ws[j].dev) in ws[..j]
  }

  /** With several devices counted: a banner for each device exactly when `printed` is set, at
      most once, and before each of its lines. */
  ghost predicate Announces(cfg: Config, ws: seq<Write>, printed: seq<bool>) {
    && (forall d :: 0 <= d < |printed| ==> (Banner(d) in ws <==> printed[d] && cfg.devCount > 1))
    && (forall w :: w in ws ==> w.dev < |printed|)
    && BannersOnce(ws)
    && (cfg.devCount > 1 ==> LinesFollowBanners(ws))
  }

  /** And by the time an entry of the device is consumed. */
  ghost predicate Announced(cfg: Config, s: State) {
    Announces(cfg, s.writes, s.printed) && forall c :: c in s.history ==> c.dev < |s.printed| && s.printed[c.dev]
  }

  ghost predicate Inv(cfg: Config, s: State) {
    && Shape(s) && Ordered(s) && Counted(s) && Conserved(s)
    && InArrivalOrder(s) && LinesAreThePrinted(s) && Announced(cfg, s)
  }

  // ----- consuming one entry

  lemma MoveOne(printed: multiset<Entry>, skipped: multiset<Entry>, queued: multiset<Entry>, e: Entry)
    ensures printed + skipped + (queued + multiset{e}) == (printed + multiset{e}) + skipped + queued
    ensures printed + skipped + (queued + multiset{e}) == printed + (skipped + multiset{e}) + queued
  {
  }

  lemma PopConserves(cfg: Config, s: State, d: nat, shown: bool)
    requires Shape(s) && d < |s.queues| && s.queues[d] != [] && Conserved(s)
    ensures Conserved(Pop(cfg, s, d, shown))
  {
    var c, t := Consumed(d, s.queues[d][0], shown), Pop(cfg, s, d, shown);
    CountAppend(s.history, c, Printed);
    CountAppend(s.history, c, Skipped);
    FlattenPop(s.queues, d);
    MoveOne(Count(s.history, Printed), Count(s.history, Skipped), multiset(Flatten(t.queues)), c.entry);
  }

  lemma PopKeepsArrivalOrder(cfg: Config, s: State, d: nat, shown: bool)
    requires Shape(s) && d < |s.queues| && s.queues[d] != [] && InArrivalOrder(s)
    ensures InArrivalOrder(Pop(cfg, s, d, shown))
  {
    var c, t := Consumed(d, s.queues[d][0], shown), Pop(cfg, s, d, shown);
    forall k | 0 <= k < |t.queues| && Sorted(t.arrived[k])
      ensures Entries(Project(t.history, FromDevice(k))) + t.queues[k] == t.arrived[k]
    {
      ProjectAppend(s.history, c, FromDevice(k));
      EntriesAppend(Project(s.history, FromDevice(k)), c);
      assert s.queues[d] == [c.entry] + s.queues[d][1..];
    }
  }

  lemma AppendKeepsBanners(ws: seq<Write>, w: Write)
    requires BannersOnce(ws) && (w.Banner? ==> w !in ws)
    ensures BannersOnce(ws + [w])
    ensures LinesFollowBanners(ws) && (w.Line? ==> Banner(w.dev) in ws) ==> LinesFollowBanners(ws + [w])
  {
    var longer := ws + [w];
    assert forall j :: 0 <= j < |ws| ==> longer[j] == ws[j] && longer[..j] == ws[..j];
    assert longer[..|ws|] == ws;
  }

  lemma OpenedAnnounces(cfg: Config, ws: seq<Write>, printed: seq<bool>, d: nat)
    requires d < |printed| && Announces(cfg, ws, printed)
    ensures Announces(cfg, Opened(cfg, ws, d, printed[d]), printed[d := true])
  {
    if !printed[d] && cfg.devCount > 1 {
      AppendKeepsBanners(ws, Banner(d));
    }
  }

  lemma LineAnnounces(cfg: Config, ws: seq<Write>, printed: seq<bool>, d: nat, e: Entry)
    requires d < |printed| && printed[d] && Announces(cfg, ws, printed)
    ensures Announces(cfg, ws + [Line(d, e)], printed)
  {
    AppendKeepsBanners(ws, Line(d, e));
  }

  lemma PopAnnounces(cfg: Config, s: State, d: nat, shown: bool)
    requires Shape(s) && d < |s.queues| && s.queues[d] != [] && Announced(cfg, s)
    ensures Announced(cfg, Pop(cfg, s, d, shown))
  {
    OpenedAnnounces(cfg, s.writes, s.printed, d);
    LineAnnounces(cfg, Opened(cfg, s.writes, d, s.printed[d]), s.printed[d := true], d, s.queues[d][0]);
  }

  lemma PopKeepsLines(cfg: Config, s: State, d: nat, shown: bool)
    requires Shape(s) && d < |s.queues| && s.queues[d] != [] && LinesAreThePrinted(s)
    ensures LinesAreThePrinted(Pop(cfg, s, d, shown))
  {
    var e := s.queues[d][0];
    ProjectAppend(s.history, Consumed(d, e, shown), Printed);
    LinesAppend(s.writes, Banner(d));
    LinesAppend(Opened(cfg, s.writes, d, s.printed[d]), Line(d, e));
  }

  lemma PopKeepsQueues(cfg: Config, s: State, d: nat, shown: bool)
    requires Shape(s) && d < |s.queues| && s.queues[d] != [] && Ordered(s) && Counted(s)
    ensures Ordered(Pop(cfg, s, d, shown)) && Counted(Pop(cfg, s, d, shown))
  {
    FlattenPop(s.queues, d);
  }

  lemma PopKeepsInv(cfg: Config, s: State, d: nat, shown: bool)
    requires Inv(cfg, s) && d < |s.queues| && s.queues[d] != []
    ensures Inv(cfg, Pop(cfg, s, d, shown))
  {
    PopKeepsQueues(cfg, s, d, shown);
    PopConserves(cfg, s, d, shown);
    PopKeepsArrivalOrder(cfg, s, d, shown);
    PopAnnounces(cfg, s, d, shown);
    PopKeepsLines(cfg, s, d, shown);
  }

  // ----- receiving one entry

  lemma ReceiveConserves(s: State, d: nat, e: Entry)
    requires Shape(s) && d < |s.queues| && Conserved(s) && Counted(s)
    ensures Conserved(Receive(s, d, e)) && Counted(Receive(s, d, e))
  {
    InsertContents(s.queues[d], e);
    FlattenAdd(s.queues, d, Insert(s.queues[d], e), e);
    FlattenAdd(s.arrived, d, s.arrived[d] + [e], e);
  }

  lemma ReceiveKeepsArrivalOrder(s: State, d: nat, e: Entry)
    requires Shape(s) && d < |s.queues| && InArrivalOrder(s)
    ensures InArrivalOrder(Receive(s, d, e))
  {
    if Sorted(s.arrived[d] + [e]) {
      var a := s.arrived[d];
      assert forall i :: 0 <= i < |a| ==> (a + [e])[i] == a[i];
      var before := Entries(Project(s.history, FromDevice(d)));
      assert before + s.queues[d] == a;
      forall j | 0 <= j < |s.queues[d]| ensures Key(s.queues[d][j]) <= Key(e) {
        assert s.queues[d][j] == a[|before| + j];
        assert (a + [e])[|before| + j] == a[|before| + j] && (a + [e])[|a|] == e;
      }
      InsertLast(s.queues[d], e);
    }
  }

  lemma ReceiveKeepsInv(cfg: Config, s: State, d: nat, e: Entry)
    requires Inv(cfg, s) && d < |s.queues|
    ensures Inv(cfg, Receive(s, d, e))
  {
    InsertKeepsSorted(s.queues[d], e);
    ReceiveConserves(s, d, e);
    ReceiveKeepsArrivalOrder(s, d, e);
  }

  // ----- runs

  lemma {:induction false} DrainKeepsInv(cfg: Config, s: State)
    requires Inv(cfg, s)
    ensures Inv(cfg, Drain(cfg, s))
    decreases |Flatten(s.queues)|
  {
    var d := First(s.queues);
    if d != -1 {
      var shown := cfg.tail == 0 || s.queuedLines <= cfg.tail;
      PopKeepsInv(cfg, s, d, shown);
      FlattenPop(s.queues, d);
      DrainKeepsInv(cfg, Pop(cfg, s, d, shown));
    }
  }

  lemma {:induction false} EagerKeepsInv(cfg: Config, s: State)
    requires Inv(cfg, s)
    ensures Inv(cfg, Eager(cfg, s))
    decreases |Flatten(s.queues)|
  {
    var d := First(s.queues);
    if (cfg.tail == 0 || s.queuedLines > cfg.tail) && d != -1 && |s.queues[d]| != 1 {
      PopKeepsInv(cfg, s, d, cfg.tail == 0);
      FlattenPop(s.queues, d);
      EagerKeepsInv(cfg, Pop(cfg, s, d, cfg.tail == 0));
    }
  }

  lemma {:induction false} ReadAllKeepsInv(cfg: Config, s: State, results: seq<Read>, i: nat)
    requires Inv(cfg, s) && |results| == |s.queues| && i <= |results|
    ensures Inv(cfg, ReadAll(s, results, i).0)
    decreases |results| - i
  {
    if i < |results| {
      match results[i]
      case NotReady => ReadAllKeepsInv(cfg, s, results, i + 1);
      case Got(e) =>
        ReceiveKeepsInv(cfg, s, i, e);
        ReadAllKeepsInv(cfg, Receive(s, i, e), results, i + 1);
      case _ =>
    }
  }

  lemma FlagsKeepInv(cfg: Config, s: State, sleep: bool, running: bool)
    requires Inv(cfg, s)
    ensures Inv(cfg, s.(sleep := sleep, running := running))
  {
  }

  lemma TimeoutKeepsInv(cfg: Config, s: State)
    requires Inv(cfg, s) && s.running
    ensures Inv(cfg, Round(cfg, s, Timeout))
  {
    FlagsKeepInv(cfg, s, true, true);
    DrainKeepsInv(cfg, s.(sleep := true));
    var t := Drain(cfg, s.(sleep := true));
    FlagsKeepInv(cfg, t, t.sleep, !cfg.nonblock);
  }

  lemma ReadyKeepsInv(cfg: Config, s: State, results: seq<Read>)
    requires Inv(cfg, s) && s.running && |results| == |s.queues|
    ensures Inv(cfg, Round(cfg, s, Ready(results)))
  {
    ReadAllKeepsInv(cfg, s, results, 0);
    var (t, outcome) := ReadAll(s, results, 0);
    AfterReads(cfg, t, outcome);
    assert Round(cfg, s, Ready(results)) == match outcome
      case Completed => Eager(cfg, t.(sleep := false))
      case Interrupted => t
      case Died => t.(running := false);
  }

  lemma AfterReads(cfg: Config, t: State, outcome: Outcome)
    requires Inv(cfg, t)
    ensures match outcome
      case Completed => Inv(cfg, Eager(cfg, t.(sleep := false)))
      case Interrupted => true
      case Died => Inv(cfg, t.(running := false))
  {
    FlagsKeepInv(cfg, t, false, t.running);
    FlagsKeepInv(cfg, t, t.sleep, false);
    EagerKeepsInv(cfg, t.(sleep := false));
  }

  lemma RoundKeepsInv(cfg: Config, s: State, input: Input)
    requires Inv(cfg, s) && Fits(s, input)
    ensures Inv(cfg, Round(cfg, s, input))
  {
    if s.running {
      match input
      case SelectError =>
      case Timeout => TimeoutKeepsInv(cfg, s);
      case Ready(results) => ReadyKeepsInv(cfg, s, results);
    }
  }

  lemma {:induction false} FlattenEmpty(n: nat)
    ensures Flatten(seq(n, _ => [])) == []
  {
    if n > 0 {
      FlattenEmpty(n - 1);
      assert seq<seq<Entry>>(n, _ => [])[1..] == seq<seq<Entry>>(n - 1, _ => []);
    }
  }

  /** Every state of every run, whatever select and read return. */
  lemma {:induction false} RunKeepsInv(cfg: Config, n: nat, inputs: seq<Input>)
    requires Inputs(n, inputs)
    ensures Inv(cfg, Run(cfg, n, inputs))
  {
    if inputs == [] {
      FlattenEmpty(n);
    } else {
      RunKeepsInv(cfg, n, inputs[..|inputs| - 1]);
      RoundKeepsInv(cfg, Run(cfg, n, inputs[..|inputs| - 1]), inputs[|inputs| - 1]);
    }
  }
}
