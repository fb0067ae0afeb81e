/** From the drivers to the files: the merge loop feeding the rotating output. */
module Pipeline {
  import opened Timestamps
  import opened EntryQueues
  import opened MergeLoop
  import opened MergeInvariants
  import opened DrainOrder
  import opened MergeWorld
  import opened Delivery
  import opened Emission
  import opened Options
  import FileNames
  import Filters
  import Formatter
  import R = Rotation
  import Wire

  /** End to end, for any arrivals, schedule, partial or failed writes and failed renames: the
      retained files are the initial text and what was taken of each write, but for the oldest files
      overwritten, exactly unless a rotation lost another file; the lines written are the printed
      entries, one for one and in the order of their stamps; and every entry that arrived is printed,
      skipped (never without -t), queued or pending. */
  lemma EndToEnd(cfg: Config, out: R.Config, files: R.Files, texts: Texts, system: nat -> Effect, n: nat, actions: seq<Action>)
    requires FileNames.Fits(out.base, out.max)
    ensures var w := Steps(cfg, n, actions);
            var s := w.reader;
            var events := EventsOf(texts, system, s.writes);
            var o := R.HandleAll(out, R.Setup(out, files), events);
            && o.written == Rendered(texts, system, s.writes)
            && (R.IsRest(R.Kept(out, o), R.Chain(files, out.base, out.max) + o.written, o.dropped)
                <==> !R.LosesMiddleSomewhere(out, files, events))
            && Lines(s.writes) == Project(s.history, Printed) && Sorted(Entries(Lines(s.writes)))
            && multiset(AllArrivals(cfg, n, actions))
               == multiset(Entries(Lines(s.writes))) + Count(s.history, Skipped)
                  + multiset(Flatten(s.queues)) + multiset(Flatten(w.pending))
            && (cfg.tail == 0 ==> Count(s.history, Skipped) == multiset{})
  {
    var s := Steps(cfg, n, actions).reader;
    WrittenIsRendered(out, R.Setup(out, files), texts, system, s.writes);
    R.RetainedIsRestIff(out, files, EventsOf(texts, system, s.writes));
    WorldKeepsInv(cfg, n, actions);
    NothingVanishes(cfg, n, actions);
    ConsumptionFollowsTime(cfg, n, actions);
    assert Entries(s.history)[0..] == Entries(s.history);
    PrintedIsSorted(s.history, 0);
    if cfg.tail == 0 {
      NoneSkipped(s.history);
    }
  }

  // ----- from what the library sent to what the files hold

  /** The banners, and the messages that pass the filters, formatted, one after the other. */
  function Printout(filters: Filters.FilterSet, format: Formatter.Format, header: Entry -> string, names: nat -> string,
                    sent: Entry -> Message, ws: seq<Write>): string {
    if ws == [] then "" else
      Printout(filters, format, header, names, sent, ws[..|ws| - 1]) +
      match ws[|ws| - 1]
      case Banner(d) => BannerLine(names(d))
      case Line(_, e) =>
        if sent(e).prio < Filters.Lookup(filters, sent(e).tag) then ""
        else Formatter.Formatted(format, header(e), sent(e).tag, sent(e).text)
  }

  lemma {:induction false} RenderedIsPrintout(filters: Filters.FilterSet, format: Formatter.Format, header: Entry -> string,
                                              names: nat -> string, system: nat -> Effect, sent: Entry -> Message, ws: seq<Write>)
    requires NothingFails(ProgramTexts(filters, format, header, names), system, ws)
    requires forall w :: w in ws && w.Line? ==> Carries(w.entry, sent(w.entry))
    ensures Rendered(ProgramTexts(filters, format, header, names), system, ws)
         == Printout(filters, format, header, names, sent, ws)
  {
    if ws != [] {
      var w := ws[|ws| - 1];
      RenderedIsPrintout(filters, format, header, names, system, sent, ws[..|ws| - 1]);
      assert TakesWhole(ProgramTexts(filters, format, header, names), system(|ws| - 1), w);
      if w.Line? {
        SentLine(filters, format, header, w.entry, sent(w.entry));
      }
    }
  }

  lemma NothingLost(out: R.Config, files: R.Files, texts: Texts, system: nat -> Effect, ws: seq<Write>)
    requires NothingFails(texts, system, ws)
    ensures !R.LosesMiddleSomewhere(out, files, EventsOf(texts, system, ws))
  {
  }

  lemma {:induction false} LineIsListed(ws: seq<Write>, w: Write)
    requires w in ws && w.Line?
    ensures w.entry in Entries(Lines(ws))
  {
    var front, last := ws[..|ws| - 1], ws[|ws| - 1];
    if last == w {
      assert Entries(Lines(ws))[|Lines(ws)| - 1] == w.entry;
    } else {
      LineIsListed(front, w);
      var i :| 0 <= i < |Lines(front)| && Entries(Lines(front))[i] == w.entry;
      assert Entries(Lines(ws))[i] == w.entry;
    }
  }

  lemma LinesCarry(cfg: Config, n: nat, actions: seq<Action>, sent: Entry -> Message)
    requires forall a :: a in actions && a.Arrive? ==> Carries(a.entry, sent(a.entry))
    ensures forall w :: w in Steps(cfg, n, actions).reader.writes && w.Line? ==> Carries(w.entry, sent(w.entry))
  {
    var s := Steps(cfg, n, actions).reader;
    WorldKeepsInv(cfg, n, actions);
    forall w | w in s.writes && w.Line? ensures Carries(w.entry, sent(w.entry)) {
      LineIsListed(s.writes, w);
      PrintedArrived(cfg, n, actions, w.entry);
    }
  }

  /** From the library to the files. If the library alone writes to the devices and no write or
      rename fails, the files hold the initial text and then the messages printed that pass the
      filters, formatted and in the order of their stamps, each device announced once before its
      first one, but for the oldest files overwritten. After a select that timed out those are,
      without -t, all messages sent but for some no older than that select; with -t N the newest N. */
  lemma ProgramEndToEnd(cfg: Config, out: R.Config, files: R.Files, system: nat -> Effect,
                        filters: Filters.FilterSet, format: Formatter.Format, header: Entry -> string, names: nat -> string,
                        sent: Entry -> Message, n: nat, actions: seq<Action>)
    requires FileNames.Fits(out.base, out.max)
    requires forall a :: a in actions && a.Arrive? ==> Carries(a.entry, sent(a.entry))
    requires NothingFails(ProgramTexts(filters, format, header, names), system, Steps(cfg, n, actions).reader.writes)
    ensures var w := Steps(cfg, n, actions);
            var s := w.reader;
            var texts := ProgramTexts(filters, format, header, names);
            var o := R.HandleAll(out, R.Setup(out, files), EventsOf(texts, system, s.writes));
            var all := R.Chain(files, out.base, out.max) + Printout(filters, format, header, names, sent, s.writes);
            && R.IsRest(R.Kept(out, o), all, o.dropped)
            && Lines(s.writes) == Project(s.history, Printed) && Sorted(Entries(Lines(s.writes)))
            && Announced(cfg, s)
            && multiset(AllArrivals(cfg, n, actions)) == multiset(Flatten(s.arrived)) + multiset(Flatten(w.pending))
            && (EndsWithTimeout(cfg, n, actions) ==>
                 && (forall e :: e in Flatten(w.pending) ==> LastSelect(cfg, n, actions) <= Key(e))
                 && (cfg.tail == 0 ==>
                      multiset(AllArrivals(cfg, n, actions)) == multiset(Entries(Lines(s.writes))) + multiset(Flatten(w.pending)))
                 && (0 < cfg.tail && cfg.nonblock ==> NewestPrinted(s.history, cfg.tail, |Flatten(s.arrived)|)))
  {
    var s, texts := Steps(cfg, n, actions).reader, ProgramTexts(filters, format, header, names);
    EndToEnd(cfg, out, files, texts, system, n, actions);
    NothingLost(out, files, texts, system, s.writes);
    WorldKeepsInv(cfg, n, actions);
    LinesCarry(cfg, n, actions, sent);
    ReadOrPending(cfg, n, actions);
    RenderedIsPrintout(filters, format, header, names, system, sent, s.writes);
    if EndsWithTimeout(cfg, n, actions) {
      TimeoutDelivers(cfg, n, actions);
    }
  }
}
