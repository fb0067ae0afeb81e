/** The output of the reader (logutil.c): the file system it writes to, the rotation cascade and
    the byte count that triggers it. */
module Rotation {
  import opened FileNames
  import opened Options
  import opened Sequences

  type Files = map<string, string>

  /** Absent and empty files are different for rename, equal for what they hold. */
  function Get(files: Files, name: string): Option<string> {
    if name in files then Some(files[name]) else None
  }

  function Content(files: Files, name: string): string {
    if name in files then files[name] else ""
  }

  /** rename(2) of two regular files; a missing source (ENOENT) leaves everything as it is. */
  function Rename(files: Files, source: string, target: string): Files {
    if source !in files || source == target then files else (files - {source})[target := files[source]]
  }

  /** The loop of `rotate_logs` from i down to 1. A rename in `fails` fails for another reason; the
      program reports it and goes on. */
  function RenameDown(files: Files, base: string, i: nat, fails: set<nat>): Files
    decreases i
  {
    if i == 0 then files
    else RenameDown(if i in fails then files else Rename(files, FileName(base, i - 1), FileName(base, i)), base, i - 1, fails)
  }

  /** open(O_APPEND | O_CREAT). */
  function OpenAppend(files: Files, name: string): Files {
    if name in files then files else files[name := ""]
  }

  function Rotated(files: Files, base: string, max: nat, fails: set<nat>): Files {
    OpenAppend(RenameDown(files, base, max, fails), base)
  }

  // ----- what one rotation keeps

  /** name.k, ..., name.1, name: oldest text first. */
  function Chain(files: Files, base: string, k: nat): string {
    Content(files, FileName(base, k)) + if k == 0 then "" else Chain(files, base, k - 1)
  }

  /** The rename to number k takes effect. */
  predicate Moves(files: Files, base: string, k: nat, fails: set<nat>) {
    k > 0 && k !in fails && FileName(base, k - 1) in files
  }

  /** What the cascade from i leaves under number j. */
  function Moved(files: Files, base: string, i: nat, j: nat, fails: set<nat>): Option<string> {
    if 0 < j <= i && Moves(files, base, j, fails) then Get(files, FileName(base, j - 1))
    else if j < i && Moves(files, base, j + 1, fails) then None
    else Get(files, FileName(base, j))
  }

  lemma RenameOne(files: Files, base: string, max: nat, i: nat, j: nat)
    requires Fits(base, max) && 0 < i <= max && j <= max
    ensures var h := Rename(files, FileName(base, i - 1), FileName(base, i));
            Get(h, FileName(base, j)) ==
              if j == i - 1 then None
              else if j == i && FileName(base, i - 1) in files then Get(files, FileName(base, i - 1))
              else Get(files, FileName(base, j))
  {
    NamesAreDistinct(base, max, i - 1, i);
    NamesAreDistinct(base, max, j, i);
    NamesAreDistinct(base, max, j, i - 1);
  }

  lemma MovedStep(files: Files, base: string, max: nat, i: nat, j: nat, fails: set<nat>)
    requires Fits(base, max) && 0 < i <= max && j <= max
    ensures var h := if i in fails then files else Rename(files, FileName(base, i - 1), FileName(base, i));
            Moved(h, base, i - 1, j, fails) == Moved(files, base, i, j, fails)
  {
    if i !in fails {
      RenameOne(files, base, max, i, j);
      if j > 0 {
        RenameOne(files, base, max, i, j - 1);
      }
    }
  }

  /** If the name leaves no room for a number, no file is moved. */
  lemma {:induction false} LongNamesStay(files: Files, base: string, i: nat, fails: set<nat>)
    requires |base| >= 254
    ensures RenameDown(files, base, i, fails) == files
  {
    if i > 0 {
      LongNamesAreCut(base, i - 1);
      LongNamesAreCut(base, i);
      LongNamesStay(files, base, i - 1, fails);
    }
  }

  /** For any failures: each file is where it was, or one number up, or overwritten. */
  lemma {:induction false} CascadeEffect(files: Files, base: string, max: nat, i: nat, j: nat, fails: set<nat>)
    requires Fits(base, max) && i <= max && j <= max
    ensures Get(RenameDown(files, base, i, fails), FileName(base, j)) == Moved(files, base, i, j, fails)
    decreases i
  {
    if i > 0 {
      var h := if i in fails then files else Rename(files, FileName(base, i - 1), FileName(base, i));
      CascadeEffect(h, base, max, i - 1, j, fails);
      MovedStep(files, base, max, i, j, fails);
    }
  }

  lemma RotatedContent(files: Files, base: string, max: nat, j: nat, fails: set<nat>)
    requires Fits(base, max) && j <= max
    ensures var g := Rotated(files, base, max, fails);
            Content(g, FileName(base, j)) == match Moved(files, base, max, j, fails) case None => "" case Some(text) => text
  {
    CascadeEffect(files, base, max, max, j, fails);
    NamesAreDistinct(base, max, 0, j);
  }

  /** A file other than the oldest that is overwritten: its own rename failed, the one onto it did not. */
  predicate LosesAt(files: Files, base: string, max: nat, fails: set<nat>, j: nat) {
    && 0 < j < max && j !in fails && j + 1 in fails
    && FileName(base, j - 1) in files && Content(files, FileName(base, j)) != ""
  }

  ghost predicate LosesMiddle(files: Files, base: string, max: nat, fails: set<nat>) {
    exists j: nat :: LosesAt(files, base, max, fails, j)
  }

  /** Number k is emptied by the cascade, or is the oldest and overwritten. */
  predicate Gone(files: Files, base: string, max: nat, fails: set<nat>, k: nat) {
    if k < max then Moves(files, base, k + 1, fails) else Moves(files, base, k, fails)
  }

  /** Numbers k down to 0 without a file that is gone from k. */
  function Remaining(files: Files, base: string, max: nat, fails: set<nat>, k: nat): string {
    if !Gone(files, base, max, fails, k) then Chain(files, base, k) else if k == 0 then "" else Chain(files, base, k - 1)
  }

  lemma {:induction false} RotatedChain(files: Files, base: string, max: nat, fails: set<nat>, k: nat)
    requires Fits(base, max) && k <= max
    ensures var after, all := Chain(Rotated(files, base, max, fails), base, k), Remaining(files, base, max, fails, k);
            && |after| <= |all|
            && (if exists j: nat :: j <= k && LosesAt(files, base, max, fails, j) then |after| < |all| else after == all)
  {
    if k == 0 {
      RotatedContent(files, base, max, 0, fails);
    } else {
      RotatedChain(files, base, max, fails, k - 1);
      ChainStep(files, base, max, fails, k);
      assert (exists j: nat :: j <= k && LosesAt(files, base, max, fails, j))
        <==> (exists j: nat :: j <= k - 1 && LosesAt(files, base, max, fails, j)) || LosesAt(files, base, max, fails, k);
    }
  }

  /** How number k changes what remains. */
  lemma ChainStep(files: Files, base: string, max: nat, fails: set<nat>, k: nat)
    requires Fits(base, max) && 0 < k <= max
    ensures var here, below, all := Content(Rotated(files, base, max, fails), FileName(base, k)),
                                    Remaining(files, base, max, fails, k - 1), Remaining(files, base, max, fails, k);
            && |here| + |below| <= |all|
            && (if LosesAt(files, base, max, fails, k) then |here| + |below| < |all| else here + below == all)
  {
    RotatedContent(files, base, max, k, fails);
    var content := Content(files, FileName(base, k));
    assert Chain(files, base, k) == content + Chain(files, base, k - 1);
    if Moves(files, base, k, fails) {
      if k == 1 {
        assert Chain(files, base, 0) == Content(files, FileName(base, 0));
      } else {
        assert Chain(files, base, k - 1) == Content(files, FileName(base, k - 1)) + Chain(files, base, k - 2);
      }
    }
  }

  /** What is left if only the oldest file is overwritten, where the cascade reaches it. */
  function WithoutOldest(files: Files, base: string, max: nat, fails: set<nat>): string {
    if Moves(files, base, max, fails) then Chain(files, base, max - 1) else Chain(files, base, max)
  }

  /** A rotation loses the oldest file and nothing else (nor even that one, if nothing is moved onto
      it) exactly unless some rename fails whose file is then overwritten; and then it loses more. */
  lemma RotationLosesOldest(files: Files, base: string, max: nat, fails: set<nat>)
    requires Fits(base, max)
    ensures var after := Chain(Rotated(files, base, max, fails), base, max);
            && (after == WithoutOldest(files, base, max, fails) <==> !LosesMiddle(files, base, max, fails))
            && (LosesMiddle(files, base, max, fails) ==> |after| < |WithoutOldest(files, base, max, fails)|)
  {
    RotatedChain(files, base, max, fails, max);
  }

  /** A rename that fails can cost a file from the middle: with three files x, y, z (oldest
      first), y is overwritten while x survives. */
  lemma FailedRenameLosesMiddle()
    ensures var files: Files := map["b.2" := "x", "b.1" := "y", "b" := "z"];
            && Chain(files, "b", 2) == "xyz"
            && Chain(Rotated(files, "b", 2, {2}), "b", 2) == "xz"
  {
    var files: Files := map["b.2" := "x", "b.1" := "y", "b" := "z"];
    assert Decimal(1) == "1" && Decimal(2) == "2";
    assert FileName("b", 0) == "b" && FileName("b", 1) == "b.1" && FileName("b", 2) == "b.2";
    assert Chain(files, "b", 0) == "z" && Chain(files, "b", 1) == "yz";
    var h := Rename(files, "b", "b.1");
    assert "b" != "b.1" && |"b"| == 1 && |"b.1"| == 3;
    assert "b.1"[2] != "b.2"[2];
    assert RenameDown(files, "b", 2, {2}) == RenameDown(files, "b", 1, {2}) == RenameDown(h, "b", 0, {2}) == h;
    var g := OpenAppend(h, "b");
    assert g["b"] == "" && g["b.1"] == "z" && g["b.2"] == "x";
    assert Chain(g, "b", 0) == "" && Chain(g, "b", 1) == "z";
  }

  /** a is b without its first `dropped` characters. */
  predicate IsRest(a: string, b: string, dropped: nat) {
    |a| + dropped == |b| && b[dropped..] == a
  }

  lemma RestExtends(a: string, b: string, dropped: nat, text: string)
    requires IsRest(a, b, dropped)
    ensures IsRest(a + text, b + text, dropped)
  {
  }

  lemma RestShortens(oldest: string, a: string, b: string, dropped: nat)
    requires IsRest(oldest + a, b, dropped)
    ensures IsRest(a, b, dropped + |oldest|)
  {
    assert b[dropped + |oldest|..] == b[dropped..][|oldest|..] == (oldest + a)[|oldest|..] == a;
  }

  // ----- the output over a run

  /** -f, -r and -n. */
  datatype Config = Config(base: string, kbytes: nat, max: nat)

  /** `count` is g_out_byte_count. History: all text written to the file, the banner bytes since
      the count was last reset, and the characters of all oldest files that rotations overwrote. */
  datatype Output = Output(files: Files, count: nat, written: string, bannerBytes: nat, dropped: nat)

  /** `setup_output` for a file. */
  function Setup(cfg: Config, files: Files): Output {
    var present := OpenAppend(files, cfg.base);
    Output(present, |present[cfg.base]|, "", 0, 0)
  }

  function Append(o: Output, cfg: Config, text: string): Output {
    o.(files := o.files[cfg.base := Content(o.files, cfg.base) + text], written := o.written + text)
  }

  lemma AppendNothing(o: Output, cfg: Config)
    requires cfg.base in o.files
    ensures Append(o, cfg, "") == o
  {
    assert o.files[cfg.base] + "" == o.files[cfg.base] && o.written + "" == o.written;
  }

  /** What write(2) takes of a text: nothing after an error, else a prefix. */
  function Taken(text: string, result: int): string {
    if result < 0 then "" else if result < |text| then text[..result] else text
  }

  predicate Due(cfg: Config, count: nat) {
    cfg.kbytes > 0 && count / 1024 >= cfg.kbytes
  }

  /** `rotate_logs`. */
  function RotateNow(cfg: Config, o: Output, fails: set<nat>): Output {
    var oldest := Content(o.files, FileName(cfg.base, cfg.max));
    Output(Rotated(o.files, cfg.base, cfg.max, fails), 0, o.written, 0,
           o.dropped + if Moves(o.files, cfg.base, cfg.max, fails) then |oldest| else 0)
  }

  function RotateIfDue(cfg: Config, o: Output, fails: set<nat>): Output {
    if Due(cfg, o.count) then RotateNow(cfg, o, fails) else o
  }

  /** One write of the program: a banner, or the line (if the filter passes it) that
      `processBuffer` prints. */
  datatype Event = BannerText(text: string, result: int) | LineText(line: Option<string>, result: int, fails: set<nat>)

  function LineBytes(line: Option<string>, result: int): string {
    match line case None => "" case Some(text) => Taken(text, result)
  }

  /** The output after the bytes of an event, before any rotation. */
  function Grown(cfg: Config, o: Output, event: Event): Output {
    match event
    case BannerText(text, result) =>
      var bytes := Taken(text, result);
      Append(o, cfg, bytes).(bannerBytes := o.bannerBytes + |bytes|)
    case LineText(line, result, _) =>
      var bytes := LineBytes(line, result);
      Append(o, cfg, bytes).(count := o.count + |bytes|)
  }

  function Handle(cfg: Config, o: Output, event: Event): Output {
    if event.LineText? then RotateIfDue(cfg, Grown(cfg, o, event), event.fails) else Grown(cfg, o, event)
  }

  function HandleAll(cfg: Config, o: Output, events: seq<Event>): Output {
    if events == [] then o else Handle(cfg, HandleAll(cfg, o, events[..|events| - 1]), events[|events| - 1])
  }

  /** The output before event i of a run that starts with `files`. */
  function Before(cfg: Config, files: Files, events: seq<Event>, i: nat): Output
    requires i <= |events|
  {
    HandleAll(cfg, Setup(cfg, files), events[..i])
  }

  /** Event i makes the program rotate. */
  predicate RotatesAt(cfg: Config, files: Files, events: seq<Event>, i: nat)
    requires i < |events|
  {
    events[i].LineText? && Due(cfg, Grown(cfg, Before(cfg, files, events, i), events[i]).count)
  }

  lemma FrontIsBefore(cfg: Config, files: Files, events: seq<Event>, i: nat)
    requires i < |events|
    ensures Before(cfg, files, events[..|events| - 1], i) == Before(cfg, files, events, i)
  {
    assert events[..|events| - 1][..i] == events[..i];
  }

  // ----- retention

  lemma AppendedContent(o: Output, cfg: Config, text: string, k: nat)
    requires Fits(cfg.base, cfg.max) && k <= cfg.max
    ensures Content(Append(o, cfg, text).files, FileName(cfg.base, k))
         == Content(o.files, FileName(cfg.base, k)) + if k == 0 then text else ""
  {
    NamesAreDistinct(cfg.base, cfg.max, 0, k);
  }

  lemma {:induction false} AppendExtendsChain(o: Output, cfg: Config, text: string, k: nat)
    requires Fits(cfg.base, cfg.max) && k <= cfg.max
    ensures Chain(Append(o, cfg, text).files, cfg.base, k) == Chain(o.files, cfg.base, k) + text
  {
    AppendedContent(o, cfg, text, k);
    var content := Content(o.files, FileName(cfg.base, k));
    if k > 0 {
      AppendExtendsChain(o, cfg, text, k - 1);
      assert content + "" == content;
      Assoc(content, Chain(o.files, cfg.base, k - 1), text);
    } else {
      assert content + "" == content && content + text + "" == content + text;
    }
  }

  function TextOf(event: Event): string {
    match event
    case BannerText(text, result) => Taken(text, result)
    case LineText(line, result, _) => LineBytes(line, result)
  }

  /** The retained text and what it is the rest of. */
  function Kept(cfg: Config, o: Output): string { Chain(o.files, cfg.base, cfg.max) }

  lemma GrownKeepsRest(cfg: Config, o: Output, event: Event, start: string)
    requires Fits(cfg.base, cfg.max)
    ensures var p := Grown(cfg, o, event);
            && p.dropped == o.dropped && |Kept(cfg, p)| == |Kept(cfg, o)| + |TextOf(event)|
            && p.written == o.written + TextOf(event)
            && (IsRest(Kept(cfg, o), start + o.written, o.dropped) ==>
                  IsRest(Kept(cfg, p), start + p.written, p.dropped))
  {
    AppendExtendsChain(o, cfg, TextOf(event), cfg.max);
    Assoc(start, o.written, TextOf(event));
    if IsRest(Kept(cfg, o), start + o.written, o.dropped) {
      RestExtends(Kept(cfg, o), start + o.written, o.dropped, TextOf(event));
    }
  }

  lemma RotationKeepsRest(cfg: Config, o: Output, fails: set<nat>, all: string)
    requires Fits(cfg.base, cfg.max)
    ensures var p := RotateNow(cfg, o, fails);
            && p.written == o.written && |Kept(cfg, p)| + p.dropped <= |Kept(cfg, o)| + o.dropped
            && (if LosesMiddle(o.files, cfg.base, cfg.max, fails)
                then |Kept(cfg, p)| + p.dropped < |Kept(cfg, o)| + o.dropped
                else IsRest(Kept(cfg, o), all, o.dropped) ==> IsRest(Kept(cfg, p), all, p.dropped))
  {
    RotationLosesOldest(o.files, cfg.base, cfg.max, fails);
    if Moves(o.files, cfg.base, cfg.max, fails) {
      var oldest, rest := Content(o.files, FileName(cfg.base, cfg.max)), Chain(o.files, cfg.base, cfg.max - 1);
      if IsRest(Kept(cfg, o), all, o.dropped) {
        RestShortens(oldest, rest, all, o.dropped);
      }
    }
  }

  /** Event i rotates and loses a file that is not the oldest. */
  ghost predicate LosesMiddleAt(cfg: Config, files: Files, events: seq<Event>, i: nat)
    requires i < |events|
  {
    RotatesAt(cfg, files, events, i) &&
    LosesMiddle(Grown(cfg, Before(cfg, files, events, i), events[i]).files, cfg.base, cfg.max, events[i].fails)
  }

  ghost predicate LosesMiddleSomewhere(cfg: Config, files: Files, events: seq<Event>) {
    exists i: nat :: i < |events| && LosesMiddleAt(cfg, files, events, i)
  }

  /** Over any run the retained files, oldest first, are everything that was there or was written
      but for the oldest files overwritten, exactly unless a rotation lost another file; and then
      they are shorter than that. */
  lemma {:induction false} RetainedIsRestIff(cfg: Config, files: Files, events: seq<Event>)
    requires Fits(cfg.base, cfg.max)
    ensures var o, start := HandleAll(cfg, Setup(cfg, files), events), Chain(files, cfg.base, cfg.max);
            && (IsRest(Kept(cfg, o), start + o.written, o.dropped) <==> !LosesMiddleSomewhere(cfg, files, events))
            && |Kept(cfg, o)| + o.dropped <= |start| + |o.written|
            && (LosesMiddleSomewhere(cfg, files, events) ==> |Kept(cfg, o)| + o.dropped < |start| + |o.written|)
  {
    var start := Chain(files, cfg.base, cfg.max);
    if events == [] {
      SetupKeepsChain(cfg, files, cfg.max);
      assert start + "" == start;
    } else {
      var n, front, last := |events| - 1, events[..|events| - 1], events[|events| - 1];
      RetainedIsRestIff(cfg, files, front);
      EarlierLosses(cfg, files, events);
      var o := Before(cfg, files, events, n);
      GrownKeepsRest(cfg, o, last, start);
      if RotatesAt(cfg, files, events, n) {
        RotationKeepsRest(cfg, Grown(cfg, o, last), last.fails, start + o.written + TextOf(last));
        Assoc(start, o.written, TextOf(last));
      }
    }
  }

  lemma EarlierLosses(cfg: Config, files: Files, events: seq<Event>)
    requires events != []
    ensures LosesMiddleSomewhere(cfg, files, events)
       <==> LosesMiddleSomewhere(cfg, files, events[..|events| - 1]) || LosesMiddleAt(cfg, files, events, |events| - 1)
  {
    var n, front := |events| - 1, events[..|events| - 1];
    forall i: nat | i < n
      ensures LosesMiddleAt(cfg, files, events, i) == LosesMiddleAt(cfg, files, front, i)
    {
      FrontIsBefore(cfg, files, events, i);
    }
    if i: nat :| i < |events| && LosesMiddleAt(cfg, files, events, i) {
      assert i < n ==> LosesMiddleAt(cfg, files, front, i);
    }
    if i: nat :| i < n && LosesMiddleAt(cfg, files, front, i) {
      assert LosesMiddleAt(cfg, files, events, i);
    }
  }

  lemma {:induction false} SetupKeepsChain(cfg: Config, files: Files, k: nat)
    requires Fits(cfg.base, cfg.max) && k <= cfg.max
    ensures Chain(Setup(cfg, files).files, cfg.base, k) == Chain(files, cfg.base, k)
  {
    NamesAreDistinct(cfg.base, cfg.max, 0, k);
    if k > 0 {
      SetupKeepsChain(cfg, files, k - 1);
    }
  }

  // ----- accounting

  /** The count is the size of the open file without its banners. */
  predicate Accounted(cfg: Config, o: Output) {
    cfg.base in o.files && |o.files[cfg.base]| == o.count + o.bannerBytes
  }

  /** After a rotation the count matches the file exactly if old files are kept and the rename of
      the file just written did not fail; otherwise that file is still open, and full. */
  lemma AccountedAfterRotation(cfg: Config, o: Output, fails: set<nat>)
    requires Fits(cfg.base, cfg.max) && cfg.base in o.files && o.files[cfg.base] != ""
    ensures Accounted(cfg, RotateNow(cfg, o, fails)) <==> cfg.max > 0 && 1 !in fails
    ensures cfg.base in RotateNow(cfg, o, fails).files
  {
    NamesAreDistinct(cfg.base, cfg.max, 0, 0);
    CascadeEffect(o.files, cfg.base, cfg.max, cfg.max, 0, fails);
  }

  /** Event i makes the program rotate for the last time. */
  ghost predicate LastRotation(cfg: Config, files: Files, events: seq<Event>, i: nat)
    requires i < |events|
  {
    RotatesAt(cfg, files, events, i) && forall k :: i < k < |events| ==> !RotatesAt(cfg, files, events, k)
  }

  /** The last rotation, if there was one, moved the file away. */
  ghost predicate LastRotationMoved(cfg: Config, files: Files, events: seq<Event>) {
    forall i: nat :: i < |events| && LastRotation(cfg, files, events, i) ==> cfg.max > 0 && 1 !in events[i].fails
  }

  lemma LastRotationBefore(cfg: Config, files: Files, events: seq<Event>, i: nat)
    requires i < |events| - 1
    ensures LastRotation(cfg, files, events, i)
       <==> LastRotation(cfg, files, events[..|events| - 1], i) && !RotatesAt(cfg, files, events, |events| - 1)
  {
    var n, front := |events| - 1, events[..|events| - 1];
    forall k: nat | k < n ensures RotatesAt(cfg, files, events, k) == RotatesAt(cfg, files, front, k) {
      FrontIsBefore(cfg, files, events, k);
    }
    if LastRotation(cfg, files, front, i) && !RotatesAt(cfg, files, events, n) {
      forall k | i < k < |events| ensures !RotatesAt(cfg, files, events, k) {
        assert k == n || !RotatesAt(cfg, files, front, k);
      }
    }
  }

  lemma EarlierRotations(cfg: Config, files: Files, events: seq<Event>)
    requires events != []
    ensures LastRotationMoved(cfg, files, events)
       <==> if RotatesAt(cfg, files, events, |events| - 1)
            then cfg.max > 0 && 1 !in events[|events| - 1].fails
            else LastRotationMoved(cfg, files, events[..|events| - 1])
  {
    var n, front := |events| - 1, events[..|events| - 1];
    assert LastRotation(cfg, files, events, n) <==> RotatesAt(cfg, files, events, n);
    forall i: nat | i < n
      ensures LastRotation(cfg, files, events, i) <==> LastRotation(cfg, files, front, i) && !RotatesAt(cfg, files, events, n)
    {
      LastRotationBefore(cfg, files, events, i);
    }
  }

  /** After any run the count is the size of the open file without its banners, exactly if the last
      rotation moved the full file away. */
  lemma {:induction false} CountIsFileSizeIff(cfg: Config, files: Files, events: seq<Event>)
    requires Fits(cfg.base, cfg.max)
    ensures var o := HandleAll(cfg, Setup(cfg, files), events);
            && cfg.base in o.files && |o.files[cfg.base]| >= o.count + o.bannerBytes
            && (Accounted(cfg, o) <==> LastRotationMoved(cfg, files, events))
  {
    if events != [] {
      var n := |events| - 1;
      CountIsFileSizeIff(cfg, files, events[..n]);
      EarlierRotations(cfg, files, events);
      var o, last := Before(cfg, files, events, n), events[n];
      if RotatesAt(cfg, files, events, n) {
        AccountedAfterRotation(cfg, Grown(cfg, o, last), last.fails);
      }
    }
  }

  /** With rotation on, no line leaves the count at the limit or above it. */
  lemma CountStaysBelowLimit(cfg: Config, o: Output, event: Event)
    requires cfg.kbytes > 0 && event.LineText?
    ensures Handle(cfg, o, event).count < 1024 * cfg.kbytes
  {
  }

  /** Nor does anything after the first line. */
  lemma {:induction false} CountBelowLimitAfterLine(cfg: Config, files: Files, events: seq<Event>, k: nat)
    requires cfg.kbytes > 0 && k < |events| && events[k].LineText?
    ensures HandleAll(cfg, Setup(cfg, files), events).count < 1024 * cfg.kbytes
  {
    var n := |events| - 1;
    if events[n].LineText? {
      CountStaysBelowLimit(cfg, HandleAll(cfg, Setup(cfg, files), events[..n]), events[n]);
    } else {
      CountBelowLimitAfterLine(cfg, files, events[..n], k);
    }
  }

  lemma SetAside(cfg: Config, o: Output, event: Event)
    requires Fits(cfg.base, cfg.max) && cfg.max > 0 && cfg.base in o.files
    requires event.LineText? && Due(cfg, Grown(cfg, o, event).count) && 1 !in event.fails
    ensures Get(Handle(cfg, o, event).files, FileName(cfg.base, 1)) == Some(o.files[cfg.base] + TextOf(event))
  {
    NamesAreDistinct(cfg.base, cfg.max, 0, 1);
    CascadeEffect(Grown(cfg, o, event).files, cfg.base, cfg.max, cfg.max, 1, event.fails);
  }

  lemma SizeAside(cfg: Config, o: Output, event: Event)
    requires cfg.base in o.files && |o.files[cfg.base]| >= o.count + o.bannerBytes
    requires event.LineText? && Due(cfg, Grown(cfg, o, event).count)
    ensures var size := |o.files[cfg.base] + TextOf(event)| - o.bannerBytes;
            && size >= 1024 * cfg.kbytes
            && (Accounted(cfg, o) && o.count < 1024 * cfg.kbytes ==> size < 1024 * cfg.kbytes + |TextOf(event)|)
  {
  }

  /** In any run, a rotation that moves its file puts the old text and the line aside as number 1.
      Without its banners that file has at least the limit; and after an earlier line, if the last
      rotation moved its file too, less than the limit plus its last line. */
  lemma RotatedFileSize(cfg: Config, files: Files, events: seq<Event>, i: nat)
    requires Fits(cfg.base, cfg.max) && cfg.max > 0
    requires i < |events| && RotatesAt(cfg, files, events, i) && 1 !in events[i].fails
    ensures var o, after := Before(cfg, files, events, i), Before(cfg, files, events, i + 1);
            && cfg.base in o.files
            && var aside := o.files[cfg.base] + TextOf(events[i]);
            && Get(after.files, FileName(cfg.base, 1)) == Some(aside)
            && |aside| - o.bannerBytes >= 1024 * cfg.kbytes
            && (LastRotationMoved(cfg, files, events[..i]) && (exists k :: 0 <= k < i && events[k].LineText?) ==>
                  |aside| - o.bannerBytes < 1024 * cfg.kbytes + |TextOf(events[i])|)
  {
    assert events[..i + 1][..i] == events[..i];
    CountIsFileSizeIff(cfg, files, events[..i]);
    SetAside(cfg, Before(cfg, files, events, i), events[i]);
    SizeAside(cfg, Before(cfg, files, events, i), events[i]);
    if k :| 0 <= k < i && events[k].LineText? {
      CountBelowLimitAfterLine(cfg, files, events[..i], k);
    }
  }
}
