/** `-t N` counts entries before the filters see them; the help text speaks of lines. */
module TailFilters {
  import opened Timestamps
  import opened EntryQueues
  import opened MergeLoop
  import opened MergeInvariants
  import opened DrainOrder
  import opened Emission
  import opened Options
  import Filters
  import Formatter
  import R = Rotation

  // ----- sums over entries

  function Total(s: seq<Entry>, weight: Entry -> nat): nat {
    if s == [] then 0 else weight(s[0]) + Total(s[1..], weight)
  }

  lemma {:induction false} TotalConcat(a: seq<Entry>, b: seq<Entry>, weight: Entry -> nat)
    ensures Total(a + b, weight) == Total(a, weight) + Total(b, weight)
  {
    if a == [] {
      assert a + b == b;
    } else {
      TotalConcat(a[1..], b, weight);
      assert (a + b)[1..] == a[1..] + b;
    }
  }

  lemma TotalOne(e: Entry, weight: Entry -> nat)
    ensures Total([e], weight) == weight(e)
  {
    assert [e][1..] == [] && Total([e][1..], weight) == 0;
  }

  lemma RemoveOne(s: seq<Entry>, i: nat)
    requires i < |s|
    ensures multiset(s) == multiset(s[..i] + s[i + 1..]) + multiset{s[i]}
  {
    assert s == s[..i] + [s[i]] + s[i + 1..];
  }

  lemma Cancel(a: multiset<Entry>, b: multiset<Entry>, e: Entry)
    requires a + multiset{e} == b + multiset{e}
    ensures a == b
  {
    assert a == a + multiset{e} - multiset{e} && b == b + multiset{e} - multiset{e};
  }

  lemma TotalAround(a: seq<Entry>, e: Entry, b: seq<Entry>, weight: Entry -> nat)
    ensures Total(a + [e] + b, weight) == Total(a + b, weight) + weight(e)
  {
    TotalConcat(a + [e], b, weight);
    TotalConcat(a, [e], weight);
    TotalConcat(a, b, weight);
    TotalOne(e, weight);
  }

  lemma {:induction false} TotalPermutes(a: seq<Entry>, b: seq<Entry>, weight: Entry -> nat)
    requires multiset(a) == multiset(b)
    ensures Total(a, weight) == Total(b, weight)
  {
    if a == [] {
      assert |multiset(b)| == |b|;
    } else {
      assert a[0] in multiset(b);
      var i :| 0 <= i < |b| && b[i] == a[0];
      RemoveOne(a, 0);
      RemoveOne(b, i);
      assert a[..0] + a[1..] == a[1..];
      Cancel(multiset(a[1..]), multiset(b[..i] + b[i + 1..]), a[0]);
      TotalPermutes(a[1..], b[..i] + b[i + 1..], weight);
      TotalAround(b[..i], b[i], b[i + 1..], weight);
      assert b == b[..i] + [b[i]] + b[i + 1..];
    }
  }

  function Indicator(passes: Entry -> bool): Entry -> nat {
    (e: Entry) => if passes(e) then 1 else 0
  }

  /** How many entries pass. */
  function Passing(s: seq<Entry>, passes: Entry -> bool): nat {
    Total(s, Indicator(passes))
  }

  lemma {:induction false} PassingExtremes(s: seq<Entry>, passes: Entry -> bool)
    ensures Passing(s, passes) <= |s|
    ensures Passing(s, passes) == |s| <==> forall e :: e in s ==> passes(e)
    ensures Passing(s, passes) == 0 <==> forall e :: e in s ==> !passes(e)
  {
    if s != [] {
      PassingExtremes(s[1..], passes);
      assert s == [s[0]] + s[1..];
    }
  }

  /** With N entries printed (or all of them) out of those read, N passing ones (or all of those)
      are among them exactly if nothing skipped passes or everything printed does. */
  lemma PassingOfTail(all: seq<Entry>, shown: seq<Entry>, hidden: seq<Entry>, n: nat, passes: Entry -> bool)
    requires multiset(all) == multiset(shown) + multiset(hidden) && |shown| == Min(n, |all|)
    ensures Passing(shown, passes) == Min(n, Passing(all, passes))
       <==> (forall e :: e in hidden ==> !passes(e)) || (forall e :: e in shown ==> passes(e))
  {
    assert multiset(shown + hidden) == multiset(all);
    assert |multiset(shown + hidden)| == |shown| + |hidden| && |multiset(all)| == |all|;
    TotalPermutes(all, shown + hidden, Indicator(passes));
    TotalConcat(shown, hidden, Indicator(passes));
    PassingExtremes(shown, passes);
    PassingExtremes(hidden, passes);
  }

  // ----- the newest N

  lemma {:induction false} PassingAt(s: seq<Entry>, passes: Entry -> bool, i: nat)
    requires i <= |s|
    ensures (forall k :: i <= k < |s| ==> passes(s[k])) ==> Passing(s, passes) >= |s| - i
    ensures (forall k :: 0 <= k < i ==> !passes(s[k])) ==> Passing(s, passes) <= |s| - i
  {
    assert s == s[..i] + s[i..];
    TotalConcat(s[..i], s[i..], Indicator(passes));
    PassingExtremes(s[..i], passes);
    PassingExtremes(s[i..], passes);
  }

  /** The stamps of a sorted sequence depend on its contents only. */
  lemma SortedStamps(a: seq<Entry>, b: seq<Entry>)
    requires Sorted(a) && Sorted(b) && multiset(a) == multiset(b)
    ensures |a| == |b| && forall i :: 0 <= i < |a| ==> Key(a[i]) == Key(b[i])
  {
    assert |multiset(a)| == |a| && |multiset(b)| == |b|;
    forall i | 0 <= i < |a| ensures Key(a[i]) == Key(b[i]) {
      StampAtMost(a, b, i);
      StampAtMost(b, a, i);
    }
  }

  lemma StampAtMost(a: seq<Entry>, b: seq<Entry>, i: nat)
    requires Sorted(a) && Sorted(b) && multiset(a) == multiset(b) && i < |a| == |b|
    ensures Key(b[i]) <= Key(a[i])
  {
    var later := (e: Entry) => Key(b[i]) <= Key(e);
    TotalPermutes(a, b, Indicator(later));
    PassingAt(b, later, i);
    PassingAt(a, later, i + 1);
  }

  /** What was read, in order, cut before its last min(n, |all|) entries. */
  function Cut(all: seq<Entry>, n: nat): (k: nat)
    ensures k <= |StableSort(all)|
  {
    StableSortContents(all);
    |all| - Min(n, |all|)
  }

  function Older(all: seq<Entry>, n: nat): seq<Entry> { StableSort(all)[..Cut(all, n)] }

  function Newest(all: seq<Entry>, n: nat): seq<Entry> { StableSort(all)[Cut(all, n)..] }

  ghost predicate SameStamps(a: seq<Entry>, b: seq<Entry>) {
    |a| == |b| && forall i :: 0 <= i < |a| ==> Key(a[i]) == Key(b[i])
  }

  lemma SortedJoin(a: seq<Entry>, b: seq<Entry>)
    requires Sorted(a) && Sorted(b) && forall x, y :: x in a && y in b ==> Key(x) <= Key(y)
    ensures Sorted(a + b)
  {
    forall i, j | 0 <= i < j < |a + b| ensures Key((a + b)[i]) <= Key((a + b)[j]) {
      if i < |a| <= j {
        assert a[i] in a && b[j - |a|] in b;
      }
    }
  }

  lemma CutStamps(front: seq<Entry>, back: seq<Entry>, whole: seq<Entry>)
    requires SameStamps(front + back, whole)
    ensures SameStamps(front, whole[..|front|]) && SameStamps(back, whole[|front|..])
  {
    forall i | 0 <= i < |front| ensures Key(front[i]) == Key(whole[i]) {
      assert (front + back)[i] == front[i];
    }
    forall i | 0 <= i < |back| ensures Key(back[i]) == Key(whole[|front| + i]) {
      assert (front + back)[|front| + i] == back[i];
    }
  }

  lemma SkippedThenShown(all: seq<Entry>, shown: seq<Entry>, hidden: seq<Entry>)
    requires multiset(all) == multiset(shown) + multiset(hidden) && Sorted(shown)
    requires forall x, y :: x in hidden && y in shown ==> Key(x) <= Key(y)
    ensures |StableSort(hidden)| + |shown| == |all| && SameStamps(StableSort(hidden) + shown, StableSort(all))
  {
    var skipped := StableSort(hidden);
    StableSortIsStable(hidden);
    StableSortContents(hidden);
    forall x, y | x in skipped && y in shown ensures Key(x) <= Key(y) {
      assert x in multiset(skipped) && x in multiset(hidden);
    }
    SortedJoin(skipped, shown);
    StableSortIsStable(all);
    StableSortContents(all);
    assert multiset(skipped + shown) == multiset(all);
    SortedStamps(skipped + shown, StableSort(all));
  }

  /** Entries printed in order, none older than a skipped one, have the stamps of the newest. */
  lemma ShownIsNewest(all: seq<Entry>, shown: seq<Entry>, hidden: seq<Entry>, n: nat)
    requires multiset(all) == multiset(shown) + multiset(hidden) && |shown| == Min(n, |all|) && Sorted(shown)
    requires forall x, y :: x in hidden && y in shown ==> Key(x) <= Key(y)
    ensures SameStamps(shown, Newest(all, n)) && SameStamps(StableSort(hidden), Older(all, n))
  {
    SkippedThenShown(all, shown, hidden);
    CutStamps(StableSort(hidden), shown, StableSort(all));
  }

  lemma PartsOfAll(all: seq<Entry>, n: nat)
    ensures forall e :: e in all <==> e in Older(all, n) || e in Newest(all, n)
    ensures multiset(all) == multiset(Older(all, n)) + multiset(Newest(all, n)) && |Newest(all, n)| == Min(n, |all|)
  {
    StableSortContents(all);
    assert StableSort(all) == Older(all, n) + Newest(all, n);
    assert forall e :: e in all <==> e in multiset(all);
    assert forall e :: e in StableSort(all) <==> e in multiset(StableSort(all));
  }

  /** What a `-t N` run has printed and skipped when it ends. */
  function Shown(h: seq<Consumed>): seq<Entry> { Entries(Project(h, Printed)) }

  function Hidden(h: seq<Consumed>): seq<Entry> { Entries(Project(h, Skipped)) }

  /** Entries with equal stamps weigh the same. (So it is if no two stamps are equal.) */
  ghost predicate Alike(all: seq<Entry>, weight: Entry -> nat) {
    forall x, y :: x in all && y in all && Key(x) == Key(y) ==> weight(x) == weight(y)
  }

  lemma {:induction false} StampsWeigh(a: seq<Entry>, b: seq<Entry>, all: seq<Entry>, weight: Entry -> nat)
    requires SameStamps(a, b) && Alike(all, weight) && forall e :: e in a || e in b ==> e in all
    ensures Total(a, weight) == Total(b, weight)
  {
    if a != [] {
      assert a[0] in all && b[0] in all && Key(a[0]) == Key(b[0]);
      assert forall i :: 0 <= i < |a| - 1 ==> a[1..][i] == a[i + 1] && b[1..][i] == b[i + 1];
      StampsWeigh(a[1..], b[1..], all, weight);
    }
  }

  /** A `-t N` run prints entries with the stamps of the newest N of those read, in order; if no two
      stamps are equal, exactly these entries. */
  lemma TailPrintsNewest(cfg: Config, n: nat, inputs: seq<Input>)
    requires Inputs(n, inputs) && 0 < cfg.tail && cfg.nonblock
    requires Run(cfg, n, inputs).running
    ensures Inputs(n, inputs + [Timeout])
    ensures var t := Run(cfg, n, inputs + [Timeout]);
            var all, shown, hidden := Flatten(t.arrived), Shown(t.history), Hidden(t.history);
            && multiset(all) == multiset(shown) + multiset(hidden) && |shown| == Min(cfg.tail, |all|)
            && SameStamps(shown, Newest(all, cfg.tail)) && SameStamps(StableSort(hidden), Older(all, cfg.tail))
            && ((forall x, y :: x in all && y in all && Key(x) == Key(y) ==> x == y) ==> shown == Newest(all, cfg.tail))
  {
    var t := Run(cfg, n, inputs + [Timeout]);
    TailIsExact(cfg, n, inputs);
    RunKeepsInv(cfg, n, inputs + [Timeout]);
    var all, shown, hidden := Flatten(t.arrived), Shown(t.history), Hidden(t.history);
    assert multiset(all) == multiset(shown) + multiset(hidden);
    forall x, y | x in hidden && y in shown ensures Key(x) <= Key(y) {
      SkippedIsOlder(t.history, x, y);
    }
    ShownIsNewest(all, shown, hidden, cfg.tail);
    SameWhereDifferent(all, shown, hidden, cfg.tail);
  }

  lemma SameWhereDifferent(all: seq<Entry>, shown: seq<Entry>, hidden: seq<Entry>, n: nat)
    requires multiset(all) == multiset(shown) + multiset(hidden) && SameStamps(shown, Newest(all, n))
    ensures (forall x, y :: x in all && y in all && Key(x) == Key(y) ==> x == y) ==> shown == Newest(all, n)
  {
    PartsOfAll(all, n);
    forall i | 0 <= i < |shown| ensures shown[i] in all && Newest(all, n)[i] in all {
      assert shown[i] in multiset(shown) && shown[i] in multiset(all);
    }
  }

  // ----- entries that pass

  /** Newer than everything that the newest N leave over, whatever ties there are. */
  predicate Within(all: seq<Entry>, n: nat, e: Entry) {
    forall x :: x in Older(all, n) ==> Key(x) < Key(e)
  }

  /** Older than everything that they take. */
  predicate Beyond(all: seq<Entry>, n: nat, e: Entry) {
    forall x :: x in Newest(all, n) ==> Key(e) < Key(x)
  }

  lemma StampIn(a: seq<Entry>, b: seq<Entry>, e: Entry)
    requires SameStamps(a, b) && e in a
    ensures exists x :: x in b && Key(x) == Key(e)
  {
    var i :| 0 <= i < |a| && a[i] == e;
    assert b[i] in b;
  }

  lemma TiesAside(all: seq<Entry>, shown: seq<Entry>, hidden: seq<Entry>, n: nat)
    requires multiset(all) == multiset(shown) + multiset(hidden)
    requires SameStamps(shown, Newest(all, n)) && SameStamps(StableSort(hidden), Older(all, n))
    ensures forall e :: e in all <==> e in shown || e in hidden
    ensures forall e :: e in shown ==> !Beyond(all, n, e)
    ensures forall e :: e in hidden ==> !Within(all, n, e)
  {
    assert forall e :: e in all <==> e in multiset(shown) + multiset(hidden) by {
      assert forall e :: e in all <==> e in multiset(all);
    }
    forall e | e in shown ensures !Beyond(all, n, e) {
      StampIn(shown, Newest(all, n), e);
    }
    forall e | e in hidden ensures !Within(all, n, e) {
      StableSortContents(hidden);
      assert e in multiset(hidden) && e in multiset(StableSort(hidden));
      StampIn(StableSort(hidden), Older(all, n), e);
    }
  }

  ghost predicate NonePass(s: seq<Entry>, passes: Entry -> bool) { forall e :: e in s ==> !passes(e) }

  ghost predicate AllPass(s: seq<Entry>, passes: Entry -> bool) { forall e :: e in s ==> passes(e) }

  /** A `-t N` run prints min(N, entries read that pass) passing entries exactly if none of the older
      entries read passes or all of the newest N do, where entries with equal stamps pass alike. */
  lemma TailMeetsFilters(cfg: Config, n: nat, inputs: seq<Input>, passes: Entry -> bool)
    requires Inputs(n, inputs) && 0 < cfg.tail && cfg.nonblock
    requires Run(cfg, n, inputs).running
    ensures Inputs(n, inputs + [Timeout])
    ensures var t := Run(cfg, n, inputs + [Timeout]);
            var all := Flatten(t.arrived);
            Alike(all, Indicator(passes)) ==>
              (Passing(Shown(t.history), passes) == Min(cfg.tail, Passing(all, passes))
               <==> NonePass(Older(all, cfg.tail), passes) || AllPass(Newest(all, cfg.tail), passes))
  {
    TailPrintsNewest(cfg, n, inputs);
    var t := Run(cfg, n, inputs + [Timeout]);
    var all := Flatten(t.arrived);
    if Alike(all, Indicator(passes)) {
      PartsOfAll(all, cfg.tail);
      TiesAside(all, Shown(t.history), Hidden(t.history), cfg.tail);
      StampsWeigh(Shown(t.history), Newest(all, cfg.tail), all, Indicator(passes));
      PassingOfTail(all, Newest(all, cfg.tail), Older(all, cfg.tail), cfg.tail, passes);
    }
  }

  /** Where they do not, what no tie can change decides: it does if none that may be skipped passes
      or all that may be printed do, and only if none that must be skipped passes or all that must
      be printed do. */
  lemma TailFilterBounds(cfg: Config, n: nat, inputs: seq<Input>, passes: Entry -> bool)
    requires Inputs(n, inputs) && 0 < cfg.tail && cfg.nonblock
    requires Run(cfg, n, inputs).running
    ensures Inputs(n, inputs + [Timeout])
    ensures var t := Run(cfg, n, inputs + [Timeout]);
            var all := Flatten(t.arrived);
            ((forall e :: e in all && !Within(all, cfg.tail, e) ==> !passes(e)) ||
             (forall e :: e in all && !Beyond(all, cfg.tail, e) ==> passes(e))) ==>
              Passing(Shown(t.history), passes) == Min(cfg.tail, Passing(all, passes))
    ensures var t := Run(cfg, n, inputs + [Timeout]);
            var all := Flatten(t.arrived);
            Passing(Shown(t.history), passes) == Min(cfg.tail, Passing(all, passes)) ==>
              ((forall e :: e in all && Beyond(all, cfg.tail, e) ==> !passes(e)) ||
               (forall e :: e in all && Within(all, cfg.tail, e) ==> passes(e)))
  {
    TailPrintsNewest(cfg, n, inputs);
    var t := Run(cfg, n, inputs + [Timeout]);
    PassingOfTail(Flatten(t.arrived), Shown(t.history), Hidden(t.history), cfg.tail, passes);
    TiesAside(Flatten(t.arrived), Shown(t.history), Hidden(t.history), cfg.tail);
  }

  // ----- lines of text

  /** How many lines the program prints for an entry. */
  function LineCount(texts: Texts, e: Entry): nat {
    match texts.line(e) case None => 0 case Some(text) => Formatter.Newlines(text)
  }

  function LinesOf(texts: Texts): Entry -> nat {
    (e: Entry) => LineCount(texts, e)
  }

  /** A passing entry prints the lines of its message, one, several or none; in the LONG format those
      of a header and two more line ends. */
  lemma LinesOfMessage(filters: Filters.FilterSet, format: Formatter.Format, header: Entry -> string, names: nat -> string,
                       e: Entry, m: Message)
    requires Carries(e, m)
    requires !format.Long? ==> Formatter.NL !in header(e) && Formatter.NL !in m.tag && |m.tag| <= 122
    ensures LinesOf(ProgramTexts(filters, format, header, names))(e)
         == if m.prio < Filters.Lookup(filters, m.tag) then 0
            else if format.Long? then Formatter.Newlines(Formatter.Prefix(format, header(e))) + Formatter.Newlines(m.text) + 2
            else |Formatter.Lines(m.text)|
  {
    SentLine(filters, format, header, e, m);
    Formatter.FormattedLines(format, header(e), m.tag, m.text);
  }

  function BannerLines(texts: Texts, ws: seq<Write>): nat {
    if ws == [] then 0
    else
      BannerLines(texts, ws[..|ws| - 1])
      + match ws[|ws| - 1] case Banner(d) => Formatter.Newlines(texts.banner(d)) case Line(_, _) => 0
  }

  /** The lines of the output are those of its entries and banners. */
  lemma {:induction false} OutputLines(texts: Texts, system: nat -> Effect, ws: seq<Write>)
    requires NothingFails(texts, system, ws)
    ensures Formatter.Newlines(Rendered(texts, system, ws)) == Total(Entries(Lines(ws)), LinesOf(texts)) + BannerLines(texts, ws)
  {
    if ws != [] {
      var front, w, k := ws[..|ws| - 1], ws[|ws| - 1], |ws| - 1;
      OutputLines(texts, system, front);
      assert TakesWhole(texts, system(k), w);
      Formatter.NewlinesConcat(Rendered(texts, system, front), R.TextOf(EventOf(texts, system(k), w)));
      if w.Line? {
        EntriesAppend(Lines(front), Consumed(w.dev, w.entry, true));
        TotalConcat(Entries(Lines(front)), [w.entry], LinesOf(texts));
        TotalOne(w.entry, LinesOf(texts));
      } else {
        assert Lines(ws) == Lines(front);
      }
    }
  }

  /** The help text taken at its word: the run prints min(N, lines there are) lines, banners apart,
      exactly if the newest N entries read have N lines, or fewer and the older ones none. */
  lemma TailMeetsLines(cfg: Config, n: nat, inputs: seq<Input>, texts: Texts, system: nat -> Effect)
    requires Inputs(n, inputs) && 0 < cfg.tail && cfg.nonblock
    requires Run(cfg, n, inputs).running
    requires Inputs(n, inputs + [Timeout])
    requires var t := Run(cfg, n, inputs + [Timeout]);
             NothingFails(texts, system, t.writes) && Alike(Flatten(t.arrived), LinesOf(texts))
    ensures var t := Run(cfg, n, inputs + [Timeout]);
            var all, lines := Flatten(t.arrived), LinesOf(texts);
            var newest, older := Total(Newest(all, cfg.tail), lines), Total(Older(all, cfg.tail), lines);
            Formatter.Newlines(Rendered(texts, system, t.writes)) - BannerLines(texts, t.writes)
              == Min(cfg.tail, Total(all, lines))
            <==> newest == cfg.tail || (newest < cfg.tail && older == 0)
  {
    TailPrintsNewest(cfg, n, inputs);
    RunKeepsInv(cfg, n, inputs + [Timeout]);
    var t, lines := Run(cfg, n, inputs + [Timeout]), LinesOf(texts);
    var all := Flatten(t.arrived);
    OutputLines(texts, system, t.writes);
    PartsOfAll(all, cfg.tail);
    TiesAside(all, Shown(t.history), Hidden(t.history), cfg.tail);
    StampsWeigh(Shown(t.history), Newest(all, cfg.tail), all, lines);
    assert multiset(Older(all, cfg.tail) + Newest(all, cfg.tail)) == multiset(all);
    TotalPermutes(all, Older(all, cfg.tail) + Newest(all, cfg.tail), lines);
    TotalConcat(Older(all, cfg.tail), Newest(all, cfg.tail), lines);
  }

  function Only(weight: Entry -> nat, passes: Entry -> bool): Entry -> nat {
    (e: Entry) => if passes(e) then weight(e) else 0
  }

  lemma {:induction false} TotalOnly(s: seq<Entry>, weight: Entry -> nat, passes: Entry -> bool)
    ensures Total(s, Only(weight, passes)) <= Total(s, weight)
    ensures NonePass(s, passes) ==> Total(s, Only(weight, passes)) == 0
    ensures AllPass(s, passes) ==> Total(s, Only(weight, passes)) == Total(s, weight)
  {
    if s != [] {
      TotalOnly(s[1..], weight, passes);
      assert s == [s[0]] + s[1..];
    }
  }

  lemma TotalBetween(all: seq<Entry>, shown: seq<Entry>, hidden: seq<Entry>, weight: Entry -> nat,
                     must: Entry -> bool, may: Entry -> bool)
    requires multiset(all) == multiset(shown) + multiset(hidden) && AllPass(shown, may) && NonePass(hidden, must)
    ensures Total(all, Only(weight, must)) <= Total(shown, weight) <= Total(all, Only(weight, may))
  {
    assert multiset(shown + hidden) == multiset(all);
    TotalPermutes(all, shown + hidden, Only(weight, must));
    TotalPermutes(all, shown + hidden, Only(weight, may));
    TotalConcat(shown, hidden, Only(weight, must));
    TotalConcat(shown, hidden, Only(weight, may));
    TotalOnly(hidden, weight, must);
    TotalOnly(shown, weight, must);
    TotalOnly(shown, weight, may);
  }

  function Must(all: seq<Entry>, n: nat): Entry -> bool { (e: Entry) => Within(all, n, e) }

  function May(all: seq<Entry>, n: nat): Entry -> bool { (e: Entry) => !Beyond(all, n, e) }

  /** Whatever ties there are, the lines of entries that must be printed come out, and none of
      entries that must be skipped. */
  lemma TailLineBounds(cfg: Config, n: nat, inputs: seq<Input>, lines: Entry -> nat)
    requires Inputs(n, inputs) && 0 < cfg.tail && cfg.nonblock
    requires Run(cfg, n, inputs).running
    ensures Inputs(n, inputs + [Timeout])
    ensures var t := Run(cfg, n, inputs + [Timeout]);
            var all := Flatten(t.arrived);
            Total(all, Only(lines, Must(all, cfg.tail))) <= Total(Shown(t.history), lines)
            <= Total(all, Only(lines, May(all, cfg.tail)))
  {
    TailPrintsNewest(cfg, n, inputs);
    var t := Run(cfg, n, inputs + [Timeout]);
    var all := Flatten(t.arrived);
    TiesAside(all, Shown(t.history), Hidden(t.history), cfg.tail);
    TotalBetween(all, Shown(t.history), Hidden(t.history), lines, Must(all, cfg.tail), May(all, cfg.tail));
  }

  // ----- a run where it fails

  /** One device delivers one entry. */
  lemma OneArrival(cfg: Config, inputs: seq<Input>, e: Entry)
    requires Inputs(1, inputs) && Run(cfg, 1, inputs).running
    ensures Inputs(1, inputs + [Ready([Got(e)])])
    ensures var s, t := Run(cfg, 1, inputs), Run(cfg, 1, inputs + [Ready([Got(e)])]);
            t.running && t.arrived == [s.arrived[0] + [e]]
  {
    var s := Run(cfg, 1, inputs);
    assert (inputs + [Ready([Got(e)])])[..|inputs|] == inputs;
    var u := Receive(s, 0, e);
    assert ReadAll(s, [Got(e)], 0) == ReadAll(u, [Got(e)], 1) == (u, Completed);
    EagerReadsNothing(cfg, u.(sleep := false));
  }

  function TwoEntries(older: Entry, newer: Entry): seq<Input> {
    [Ready([Got(older)]), Ready([Got(newer)]), Timeout]
  }

  lemma TwoArrive(cfg: Config, older: Entry, newer: Entry)
    requires 0 < cfg.tail && cfg.nonblock
    ensures var t := Run(cfg, 1, TwoEntries(older, newer)[..2]); t.running && t.arrived == [[older, newer]]
  {
    assert Run(cfg, 1, []).arrived[0] + [older] == [older];
    assert [older] + [newer] == [older, newer];
    OneArrival(cfg, [], older);
    OneArrival(cfg, [Ready([Got(older)])], newer);
    assert [] + [Ready([Got(older)])] == [Ready([Got(older)])];
    assert TwoEntries(older, newer)[..2] == [Ready([Got(older)])] + [Ready([Got(newer)])];
  }

  /** `-t 1`: of two entries the newer is printed, whatever it prints. */
  lemma TailPrintsNewer(older: Entry, newer: Entry, weight: Entry -> nat)
    requires Key(older) < Key(newer)
    ensures var t := Run(Config(1, true, 1), 1, TwoEntries(older, newer));
            Total(Flatten(t.arrived), weight) == weight(older) + weight(newer) && Total(Shown(t.history), weight) == weight(newer)
  {
    var t := TwoEntriesRun(older, newer);
    PrintedIsNewer(t.history, older, newer);
    TotalConcat([older], [newer], weight);
    assert [older] + [newer] == [older, newer];
    TotalOne(older, weight);
    TotalOne(newer, weight);
  }

  /** If only the older one passes the filters, nothing comes out although a line was there. */
  lemma TailPrintsNoPassingLine(older: Entry, newer: Entry, passes: Entry -> bool)
    requires Key(older) < Key(newer) && passes(older) && !passes(newer)
    ensures var t := Run(Config(1, true, 1), 1, TwoEntries(older, newer));
            && Passing(Flatten(t.arrived), passes) == 1
            && Passing(Shown(t.history), passes) == 0
  {
    TailPrintsNewer(older, newer, Indicator(passes));
  }

  /** Nor does it if both pass and the newer one is blank; and a newer one of k lines prints k. */
  lemma TailPrintsBlank(older: Entry, newer: Entry, filters: Filters.FilterSet, format: Formatter.Format,
                        header: Entry -> string, names: nat -> string, m: Message, k: Message)
    requires Key(older) < Key(newer) && Carries(older, m) && Carries(newer, k) && !format.Long?
    requires Formatter.NL !in header(older) && Formatter.NL !in m.tag && |m.tag| <= 122
    requires Formatter.NL !in header(newer) && Formatter.NL !in k.tag && |k.tag| <= 122
    requires m.prio >= Filters.Lookup(filters, m.tag) && k.prio >= Filters.Lookup(filters, k.tag)
    ensures var t := Run(Config(1, true, 1), 1, TwoEntries(older, newer));
            var lines := LinesOf(ProgramTexts(filters, format, header, names));
            && Total(Flatten(t.arrived), lines) == |Formatter.Lines(m.text)| + |Formatter.Lines(k.text)|
            && Total(Shown(t.history), lines) == |Formatter.Lines(k.text)|
            && (k.text == "" <==> Total(Shown(t.history), lines) == 0)
  {
    LinesOfMessage(filters, format, header, names, older, m);
    LinesOfMessage(filters, format, header, names, newer, k);
    TailPrintsNewer(older, newer, LinesOf(ProgramTexts(filters, format, header, names)));
  }

  lemma TwoEntriesRun(older: Entry, newer: Entry) returns (t: State)
    ensures t == Run(Config(1, true, 1), 1, TwoEntries(older, newer))
    ensures Flatten(t.arrived) == [older, newer] && |Project(t.history, Printed)| == 1 && SkippedAreOlder(t.history)
    ensures multiset([older, newer]) == Count(t.history, Printed) + Count(t.history, Skipped)
  {
    var cfg, inputs := Config(1, true, 1), TwoEntries(older, newer)[..2];
    assert TwoEntries(older, newer) == inputs + [Timeout] && (inputs + [Timeout])[..2] == inputs;
    t := Run(cfg, 1, TwoEntries(older, newer));
    TwoArrive(cfg, older, newer);
    TailIsExact(cfg, 1, inputs);
    RunKeepsInv(cfg, 1, inputs + [Timeout]);
    DrainReadsNothing(cfg, Run(cfg, 1, inputs).(sleep := true));
    assert Flatten([[older, newer]]) == [older, newer] by { assert [[older, newer]][1..] == []; }
  }

  lemma PrintedIsNewer(h: seq<Consumed>, older: Entry, newer: Entry)
    requires Key(older) < Key(newer) && SkippedAreOlder(h) && |Project(h, Printed)| == 1
    requires multiset([older, newer]) == Count(h, Printed) + Count(h, Skipped)
    ensures Entries(Project(h, Printed)) == [newer]
  {
    var shown := Entries(Project(h, Printed));
    OneOfTwo(shown, multiset([older, newer]), Count(h, Skipped), older, newer);
    if newer in Count(h, Skipped) {
      SkippedIsOlder(h, newer, shown[0]);
    }
  }

  lemma OneOfTwo(shown: seq<Entry>, all: multiset<Entry>, rest: multiset<Entry>, older: Entry, newer: Entry)
    requires |shown| == 1 && all == multiset([older, newer]) == multiset(shown) + rest
    ensures shown[0] == newer || (shown[0] == older && newer in rest)
  {
    assert shown == [shown[0]] && shown[0] in all;
    assert all[newer] > 0;
  }

  lemma SkippedIsOlder(h: seq<Consumed>, x: Entry, y: Entry)
    requires SkippedAreOlder(h) && x in Entries(Project(h, Skipped)) && y in Entries(Project(h, Printed))
    ensures Key(x) <= Key(y)
  {
    ProjectPicks(h, Printed);
    ProjectPicks(h, Skipped);
    var k, p := Project(h, Skipped), Project(h, Printed);
    var i :| 0 <= i < |k| && k[i].entry == x;
    var j :| 0 <= j < |p| && p[j].entry == y;
    assert k[i] in h && p[j] in h && !k[i].shown && p[j].shown;
  }

  lemma {:induction false} ProjectPicks(h: seq<Consumed>, p: Pick)
    ensures forall c :: c in Project(h, p) ==> c in h && Picks(p, c)
  {
    if h != [] {
      ProjectPicks(h[..|h| - 1], p);
    }
  }
}
