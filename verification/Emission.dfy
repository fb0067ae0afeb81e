/** From the writes of the merge loop to the output calls they cause: what is written for an entry
    or a banner, and what the system does with it. */
module Emission {
  import opened Integers
  import opened Timestamps
  import opened MergeLoop
  import opened Options
  import opened Sequences
  import Filters
  import Formatter
  import L = LogOutput
  import R = Rotation
  import Wire

  /** What is printed for an entry (nothing if the filters drop it) and the banner of a device. */
  datatype Texts = Texts(line: Entry -> Option<string>, banner: nat -> string)

  /** What the system does with one write: how much it takes, whether it fails, and which renames
      fail if a rotation follows. (A failed banner write ends the program.) */
  datatype Effect = Effect(taken: nat, error: bool, fails: set<nat>)

  function EventOf(texts: Texts, effect: Effect, w: Write): R.Event {
    match w
    case Banner(d) => R.BannerText(texts.banner(d), effect.taken)
    case Line(_, e) => R.LineText(texts.line(e), if effect.error then -1 else effect.taken, effect.fails)
  }

  /** `system` gives the effect of each write by its place in the run. */
  function EventsOf(texts: Texts, system: nat -> Effect, ws: seq<Write>): (events: seq<R.Event>)
    ensures |events| == |ws|
  {
    seq(|ws|, i requires 0 <= i < |ws| => EventOf(texts, system(i), ws[i]))
  }

  /** The part of a text that the output receives: as much as the system takes; after an error none. */
  lemma EventTakes(texts: Texts, effect: Effect, w: Write)
    ensures var text := match w case Banner(d) => texts.banner(d) case Line(_, e) => (match texts.line(e) case None => "" case Some(t) => t);
            var n := if w.Line? && effect.error then 0 else if effect.taken < |text| then effect.taken else |text|;
            R.TextOf(EventOf(texts, effect, w)) == text[..n]
    ensures w.Line? ==> EventOf(texts, effect, w).fails == effect.fails
  {
    var text := match w case Banner(d) => texts.banner(d) case Line(_, e) => (match texts.line(e) case None => "" case Some(t) => t);
    assert text[..|text|] == text && text[..0] == "";
  }

  /** What the system takes of all writes, in order. */
  function Rendered(texts: Texts, system: nat -> Effect, ws: seq<Write>): string {
    if ws == [] then ""
    else Rendered(texts, system, ws[..|ws| - 1]) + R.TextOf(EventOf(texts, system(|ws| - 1), ws[|ws| - 1]))
  }

  lemma EmitOne(cfg: R.Config, o: R.Output, texts: Texts, system: nat -> Effect, ws: seq<Write>, w: Write)
    ensures R.HandleAll(cfg, o, EventsOf(texts, system, ws + [w]))
         == R.Handle(cfg, R.HandleAll(cfg, o, EventsOf(texts, system, ws)), EventOf(texts, system(|ws|), w))
    ensures Rendered(texts, system, ws + [w]) == Rendered(texts, system, ws) + R.TextOf(EventOf(texts, system(|ws|), w))
  {
    var events := EventsOf(texts, system, ws + [w]);
    assert events[..|ws|] == EventsOf(texts, system, ws);
    assert (ws + [w])[..|ws|] == ws;
  }

  lemma HandleWritesText(cfg: R.Config, o: R.Output, event: R.Event)
    ensures R.Handle(cfg, o, event).written == o.written + R.TextOf(event)
  {
  }

  /** The file receives exactly what the system takes of the writes, in order. */
  lemma {:induction false} WrittenIsRendered(cfg: R.Config, o: R.Output, texts: Texts, system: nat -> Effect, ws: seq<Write>)
    ensures R.HandleAll(cfg, o, EventsOf(texts, system, ws)).written == o.written + Rendered(texts, system, ws)
  {
    if ws != [] {
      var front, w := ws[..|ws| - 1], ws[|ws| - 1];
      assert ws == front + [w];
      WrittenIsRendered(cfg, o, texts, system, front);
      EmitOne(cfg, o, texts, system, front, w);
      var event := EventOf(texts, system(|front|), w);
      HandleWritesText(cfg, R.HandleAll(cfg, o, EventsOf(texts, system, front)), event);
      Assoc(o.written, Rendered(texts, system, front), R.TextOf(event));
    }
  }

  /** Every text is taken whole and no rename fails. */
  ghost predicate NothingFails(texts: Texts, system: nat -> Effect, ws: seq<Write>) {
    && (forall i :: system(i).fails == {})
    && forall i: nat :: i < |ws| ==> TakesWhole(texts, system(i), ws[i])
  }

  predicate TakesWhole(texts: Texts, effect: Effect, w: Write) {
    match w
    case Banner(d) => effect.taken >= |texts.banner(d)|
    case Line(_, e) => texts.line(e).Some? ==> !effect.error && effect.taken >= |texts.line(e).value|
  }

  // ----- the texts of the program

  /** The banner, as it fits its buffer. */
  function BannerLine(name: string): string {
    var text := "--------- beginning of " + name + "\n";
    if |text| > 1023 then text[..1023] else text
  }

  /** A banner that fits names its device between the announcement and its only newline; a longer
      one is cut there. */
  lemma BannerHolds(name: string)
    requires '\n' !in name
    ensures var line := BannerLine(name);
            && line[..23] == "--------- beginning of "
            && (if |name| <= 999
                then line[23..] == name + "\n" && Formatter.Newlines(line) == 1
                else line[23..] == name[..1000] && Formatter.Newlines(line) == 0)
  {
    var first := "--------- beginning of ";
    assert |first| == 23 && '\n' !in first;
    var text := first + name;
    assert forall i :: 0 <= i < |text| ==> text[i] != '\n' by {
      assert forall i :: 0 <= i < |text| ==> text[i] == if i < 23 then first[i] else name[i - 23];
    }
    if |name| <= 999 {
      assert BannerLine(name) == text + "\n" && (text + "\n")[23..] == name + "\n" && (text + "\n")[..|text|] == text;
      Formatter.OneNewline(text + "\n");
    } else {
      assert BannerLine(name) == text[..1023] && text[..1023][23..] == name[..1000];
      Formatter.NoNewlines(text[..1023]);
    }
  }

  /** So different names that fit give different banners. */
  lemma BannersDiffer(a: string, b: string)
    requires '\n' !in a && '\n' !in b && |a| <= 999 && |b| <= 999 && BannerLine(a) == BannerLine(b)
    ensures a == b
  {
    BannerHolds(a);
    BannerHolds(b);
    assert (a + "\n")[..|a|] == a && (b + "\n")[..|b|] == b;
  }

  /** What `processBuffer` prints for an entry. */
  function ProgramLine(filters: Filters.FilterSet, format: Formatter.Format, header: Entry -> string, e: Entry): Option<string> {
    if Wire.WellFormed(e.payload) then L.LineOf(filters, format, header(e), e.payload) else None
  }

  /** What a program gave to the library. */
  datatype Message = Message(prio: Uint32, tag: string, text: string)

  /** The entry is that message as the library sends it; the priority fits its byte. */
  predicate Carries(e: Entry, m: Message) {
    && Formatter.NulFree(m.tag) && Formatter.NulFree(m.text) && |m.tag| + |m.text| + 3 < Wire.SIZE_MAX
    && Wire.FitsByte(m.prio) && e.payload == Wire.Payload(m.prio, m.tag, m.text)
  }

  /** Such an entry prints the message in the chosen format if its priority reaches its tag's. */
  lemma SentLine(filters: Filters.FilterSet, format: Formatter.Format, header: Entry -> string, e: Entry, m: Message)
    requires Carries(e, m)
    ensures ProgramLine(filters, format, header, e)
         == if m.prio < Filters.Lookup(filters, m.tag) then None else Some(Formatter.Formatted(format, header(e), m.tag, m.text))
  {
    Wire.WriteParseRoundTrip(m.prio, m.tag, m.text);
  }

  /** With the one rule `*:c` for a letter c, exactly the messages sent at its priority or above are
      printed. */
  lemma StarLevel(c: char, k: nat, format: Formatter.Format, header: Entry -> string, e: Entry, m: Message)
    requires k < 7 && (c == "vdiwefs"[k] || c == "VDIWEFS"[k]) && Carries(e, m)
    ensures var filters := Filters.AddString(Filters.FRESH, "*:" + [c]).0;
            ProgramLine(filters, format, header, e).Some? <==> m.prio >= k + 2
    ensures ProgramLine(Filters.FRESH, format, header, e).Some? <==> m.prio >= 8
  {
    assert forall i :: 0 <= i < 3 ==> ("*:" + [c])[i] !in " \t,";
    Filters.AddStringOfWord(Filters.FRESH, "*:" + [c]);
    Filters.LevelOfStar(c, k, m.tag);
    SentLine(Filters.AddRule(Filters.FRESH, "*:" + [c]).0, format, header, e, m);
    SentLine(Filters.FRESH, format, header, e, m);
  }

  /** Filter and formatter applied to the entries of the merge. */
  function ProgramTexts(filters: Filters.FilterSet, format: Formatter.Format, header: Entry -> string,
                        names: nat -> string): Texts {
    Texts((e: Entry) => ProgramLine(filters, format, header, e), (d: nat) => BannerLine(names(d)))
  }

  // ----- a run of writes and the output they leave

  /** Where the output started. */
  datatype Origin = Origin(cfg: R.Config, toFile: bool, output: R.Output, stdout: string)

  /** The output is what the writes make of the origin. */
  predicate Agrees(origin: Origin, texts: Texts, system: nat -> Effect, o: R.Output, stdout: string, ws: seq<Write>) {
    if origin.toFile
    then o == R.HandleAll(origin.cfg, origin.output, EventsOf(texts, system, ws)) && stdout == origin.stdout
    else stdout == origin.stdout + Rendered(texts, system, ws)
  }

  lemma AgreesAtOrigin(origin: Origin, texts: Texts, system: nat -> Effect)
    ensures Agrees(origin, texts, system, origin.output, origin.stdout, [])
  {
    assert origin.stdout + "" == origin.stdout;
  }

  /** One more write. */
  lemma AgreesNext(origin: Origin, texts: Texts, system: nat -> Effect, o: R.Output, stdout: string, ws: seq<Write>,
                   w: Write, p: R.Output, stdout2: string)
    requires Agrees(origin, texts, system, o, stdout, ws)
    requires var event := EventOf(texts, system(|ws|), w);
             if origin.toFile then p == R.Handle(origin.cfg, o, event) && stdout2 == stdout
             else stdout2 == stdout + R.TextOf(event)
    ensures Agrees(origin, texts, system, p, stdout2, ws + [w])
  {
    EmitOne(origin.cfg, origin.output, texts, system, ws, w);
    Assoc(origin.stdout, Rendered(texts, system, ws), R.TextOf(EventOf(texts, system(|ws|), w)));
  }
}
