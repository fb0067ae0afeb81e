/** Tag filters (logprint.c): the rule parser, the filter string, the lookup and the dump.
    Strings stand for C strings, so they have no NUL inside. */
module Filters {
  import opened Integers
  import opened Sequences

  const UNKNOWN := 0
  const DEFAULT := 1
  const VERBOSE := 2
  const DEBUG := 3
  const INFO := 4
  const WARN := 5
  const ERROR := 6
  const FATAL := 7
  const SILENT := 8

  function ToLower(c: char): char {
    if 'A' <= c <= 'Z' then c - 'A' + 'a' else c
  }

  function FilterCharToPri(ch: char): int {
    var c := ToLower(ch);
    if '0' <= c <= '9' then
      if c >= '8' then VERBOSE else c as int - '0' as int
    else if c == 'v' then VERBOSE
    else if c == 'd' then DEBUG
    else if c == 'i' then INFO
    else if c == 'w' then WARN
    else if c == 'e' then ERROR
    else if c == 'f' then FATAL
    else if c == 's' then SILENT
    else if c == '*' then DEFAULT
    else UNKNOWN
  }

  function FilterPriToChar(pri: int): char {
    if pri == VERBOSE then 'V'
    else if pri == DEBUG then 'D'
    else if pri == INFO then 'I'
    else if pri == WARN then 'W'
    else if pri == ERROR then 'E'
    else if pri == FATAL then 'F'
    else if pri == SILENT then 'S'
    else '?'
  }

  /** The letters v, d, i, w, e, f, s stand for 2 to 8, in either case, and are printed in upper case;
      the digits 2 to 7 stand for themselves, 8 and 9 for v, 1 for `*`, and nothing else is printed. */
  lemma PrioritiesInNumbers(k: nat)
    requires k < 7
    ensures FilterCharToPri("vdiwefs"[k]) == k + 2 == FilterCharToPri("VDIWEFS"[k])
    ensures FilterPriToChar(k + 2) == "VDIWEFS"[k]
    ensures k < 6 ==> FilterCharToPri("234567"[k]) == k + 2
    ensures FilterCharToPri('8') == 2 == FilterCharToPri('9')
    ensures FilterCharToPri('1') == 1 == FilterCharToPri('*')
    ensures forall pri :: pri < 2 || pri > 8 ==> FilterPriToChar(pri) == '?'
  {
    assert k == 0 || k == 1 || k == 2 || k == 3 || k == 4 || k == 5 || k == 6;
  }

  /** Exactly the priorities a filter can hold survive printing and parsing. */
  lemma PriCharRoundTrip(pri: int)
    ensures FilterCharToPri(FilterPriToChar(pri)) == pri <==> VERBOSE <= pri <= SILENT || pri == UNKNOWN
  {
  }

  /** The accepted characters: digits but 0, the seven letters in either case, and `*`. */
  lemma AcceptedPriorities(c: char)
    ensures FilterCharToPri(c) != UNKNOWN <==> c in "123456789VDIWEFSvdiwefs*"
    ensures FilterCharToPri(c) == FilterCharToPri(ToLower(c))
    ensures '2' <= c <= '7' ==> FilterCharToPri(c) == c as int - '0' as int
  {
    if 'A' <= c <= 'Z' {
      assert ToLower(c) as int == c as int + 32;
    }
  }

  // ----- rules

  datatype Filter = Filter(tag: string, pri: int)

  /** The filter part of `log_format`; new filters go to the front of the list. */
  datatype FilterSet = FilterSet(globalPri: int, list: seq<Filter>)

  /** `log_format_new`. */
  const FRESH := FilterSet(SILENT, [])

  datatype Rule = Invalid | Global(pri: int) | ForTag(tag: string, pri: int)

  /** `strcspn(s, ":")`. */
  function TagLength(s: string): (n: nat)
    ensures n <= |s| && (forall i :: 0 <= i < n ==> s[i] != ':') && (n < |s| ==> s[n] == ':')
  {
    if s == "" || s[0] == ':' then 0 else 1 + TagLength(s[1..])
  }

  /** The priority written in a rule: DEFAULT without a colon. Past the end reads the final NUL. */
  function WrittenPri(expr: string): int {
    var n := TagLength(expr);
    if n == |expr| then DEFAULT
    else FilterCharToPri(if n + 1 < |expr| then expr[n + 1] else '\0')
  }

  function ParseRule(expr: string): Rule {
    ParsedAs(expr[..TagLength(expr)], WrittenPri(expr))
  }

  function ParsedAs(tag: string, pri: int): Rule {
    if tag == "" || pri == UNKNOWN then Invalid
    else if tag == "*" then Global(if pri == DEFAULT then DEBUG else pri)
    else ForTag(tag, if pri == DEFAULT then VERBOSE else pri)
  }

  /** `log_add_filter_rule`: the new filters, and whether the rule was accepted. */
  function AddRule(f: FilterSet, expr: string): (FilterSet, bool) {
    match ParseRule(expr)
    case Invalid => (f, false)
    case Global(pri) => (f.(globalPri := pri), true)
    case ForTag(tag, pri) => (f.(list := [Filter(tag, pri)] + f.list), true)
  }

  /** A bare `*` means `*:d`, a bare tag means `tag:v`, and a priority of `*` is as good as none. */
  lemma BareRules(tag: string)
    requires tag != "" && ':' !in tag
    ensures ParseRule(tag) == ParseRule(tag + (if tag == "*" then ":d" else ":v")) == ParseRule(tag + ":*")
    ensures ParseRule(tag) != Invalid
  {
    forall c ensures ParseRule(tag + [':', c]) == ParsedAs(tag, FilterCharToPri(c)) {
      var expr := tag + [':', c];
      assert expr[|tag|] == ':' && expr[..|tag|] == tag && expr[|tag| + 1] == c;
      assert TagLength(expr) == |tag|;
    }
    assert TagLength(tag) == |tag| && tag[..|tag|] == tag;
    assert ":d" == [':', 'd'] && ":v" == [':', 'v'] && ":*" == [':', '*'];
  }

  /** A rule with a priority: the first character after the colon counts, the rest is ignored. The
      tag `*` sets the priority of all tags without a rule. */
  lemma RuleInNumbers(tag: string, c: char, k: nat, rest: string)
    requires tag != "" && ':' !in tag && k < 7 && (c == "vdiwefs"[k] || c == "VDIWEFS"[k])
    ensures ParseRule(tag + [':', c] + rest) == if tag == "*" then Global(k + 2) else ForTag(tag, k + 2)
  {
    PrioritiesInNumbers(k);
    var expr := tag + [':', c] + rest;
    assert expr[|tag|] == ':' && expr[..|tag|] == tag && expr[|tag| + 1] == c;
    assert TagLength(expr) == |tag|;
  }

  /** After one such rule for all tags every tag has that priority; before any, 8. */
  lemma LevelOfStar(c: char, k: nat, tag: string)
    requires k < 7 && (c == "vdiwefs"[k] || c == "VDIWEFS"[k])
    ensures Lookup(AddRule(FRESH, "*:" + [c]).0, tag) == k + 2 && Lookup(FRESH, tag) == 8
  {
    RuleInNumbers("*", c, k, "");
    assert "*" + [':', c] + "" == "*:" + [c];
  }

  /** After one rule for a tag that tag has its priority, and all others keep 8. */
  lemma LevelOfTag(name: string, c: char, k: nat, tag: string)
    requires name != "" && name != "*" && ':' !in name && k < 7 && (c == "vdiwefs"[k] || c == "VDIWEFS"[k])
    ensures Lookup(AddRule(FRESH, name + [':', c]).0, tag) == if tag == name then k + 2 else 8
  {
    RuleInNumbers(name, c, k, "");
    assert name + [':', c] + "" == name + [':', c];
    var list := AddRule(FRESH, name + [':', c]).0.list;
    assert list == [Filter(name, k + 2)] && list[1..] == [] && LookupIn(list[1..], 8, tag) == 8;
  }

  /** Rules one after the other, rejected ones ignored. */
  function AddAll(f: FilterSet, exprs: seq<string>): FilterSet {
    if exprs == [] then f else AddRule(AddAll(f, exprs[..|exprs| - 1]), exprs[|exprs| - 1]).0
  }

  lemma {:induction false} AddAllConcat(f: FilterSet, a: seq<string>, b: seq<string>)
    ensures AddAll(f, a + b) == AddAll(AddAll(f, a), b)
  {
    if b == [] {
      assert a + b == a;
    } else {
      AddAllConcat(f, a, b[..|b| - 1]);
      assert (a + b)[..|a + b| - 1] == a + b[..|b| - 1];
    }
  }

  predicate Settled(pri: int) { VERBOSE <= pri <= SILENT }

  /** What rules build: no priority is UNKNOWN or DEFAULT, no tag is empty, "*" or has a colon. */
  ghost predicate WellFormed(f: FilterSet) {
    && Settled(f.globalPri)
    && forall x :: x in f.list ==> Settled(x.pri) && x.tag != "" && x.tag != "*" && ':' !in x.tag
  }

  lemma {:induction false} RulesKeepWellFormed(f: FilterSet, exprs: seq<string>)
    requires WellFormed(f)
    ensures WellFormed(AddAll(f, exprs))
  {
    if exprs != [] {
      RulesKeepWellFormed(f, exprs[..|exprs| - 1]);
    }
  }

  // ----- lookup

  function LookupIn(list: seq<Filter>, globalPri: int, tag: string): int {
    if list == [] then globalPri
    else if list[0].tag == tag then (if list[0].pri == DEFAULT then globalPri else list[0].pri)
    else LookupIn(list[1..], globalPri, tag)
  }

  /** `filter_pri_for_tag`. */
  function Lookup(f: FilterSet, tag: string): int {
    LookupIn(f.list, f.globalPri, tag)
  }

  predicate Names(expr: string, tag: string) {
    var r := ParseRule(expr);
    r.ForTag? && r.tag == tag
  }

  /** The rules give `tag` the priority p: the last rule for the tag, else the last `*` rule,
      else SILENT. */
  ghost predicate RulesGive(exprs: seq<string>, tag: string, p: int) {
    || (exists i :: LastNaming(exprs, tag, i) && ParseRule(exprs[i]).pri == p)
    || ((forall i :: 0 <= i < |exprs| ==> !Names(exprs[i], tag)) && GlobalGives(exprs, p))
  }

  ghost predicate LastNaming(exprs: seq<string>, tag: string, i: int) {
    0 <= i < |exprs| && Names(exprs[i], tag) && forall j :: i < j < |exprs| ==> !Names(exprs[j], tag)
  }

  ghost predicate GlobalGives(exprs: seq<string>, p: int) {
    || (exists i :: LastGlobal(exprs, i) && ParseRule(exprs[i]).pri == p)
    || ((forall i :: 0 <= i < |exprs| ==> !ParseRule(exprs[i]).Global?) && p == SILENT)
  }

  ghost predicate LastGlobal(exprs: seq<string>, i: int) {
    0 <= i < |exprs| && ParseRule(exprs[i]).Global? && forall j :: i < j < |exprs| ==> !ParseRule(exprs[j]).Global?
  }

  lemma LaterRuleKeepsGlobal(exprs: seq<string>)
    requires exprs != [] && !ParseRule(exprs[|exprs| - 1]).Global?
    ensures forall k :: LastGlobal(exprs[..|exprs| - 1], k) ==> LastGlobal(exprs, k)
  {
    var front := exprs[..|exprs| - 1];
    assert forall j :: 0 <= j < |front| ==> front[j] == exprs[j];
  }

  lemma {:induction false} GlobalIsLastRule(exprs: seq<string>)
    ensures GlobalGives(exprs, AddAll(FRESH, exprs).globalPri)
  {
    if exprs != [] {
      var front, n := exprs[..|exprs| - 1], |exprs| - 1;
      GlobalIsLastRule(front);
      if ParseRule(exprs[n]).Global? {
        assert LastGlobal(exprs, n);
      } else {
        LaterRuleKeepsGlobal(exprs);
        assert forall j :: 0 <= j < n ==> front[j] == exprs[j];
        assert AddAll(FRESH, exprs).globalPri == AddAll(FRESH, front).globalPri;
      }
    }
  }

  lemma LookupWithoutFilter(list: seq<Filter>, globalPri: int, tag: string)
    requires forall x :: x in list ==> x.tag != tag
    ensures LookupIn(list, globalPri, tag) == globalPri
  {
  }

  lemma LookupIgnoresGlobal(list: seq<Filter>, g: int, h: int, tag: string)
    requires exists x :: x in list && x.tag == tag
    requires forall x :: x in list ==> x.pri != DEFAULT
    ensures LookupIn(list, g, tag) == LookupIn(list, h, tag)
  {
  }

  /** The filters of a tag are those its rules made. */
  lemma {:induction false} FiltersComeFromRules(exprs: seq<string>, tag: string)
    ensures (exists x :: x in AddAll(FRESH, exprs).list && x.tag == tag)
       <==> (exists i :: 0 <= i < |exprs| && Names(exprs[i], tag))
  {
    if exprs != [] {
      var front, n := exprs[..|exprs| - 1], |exprs| - 1;
      FiltersComeFromRules(front, tag);
      var before, after := AddAll(FRESH, front).list, AddAll(FRESH, exprs).list;
      if Names(exprs[n], tag) {
        assert after[0].tag == tag;
      } else {
        assert forall x :: x in before ==> x in after;
        assert forall x :: x in after && x.tag == tag ==> x in before;
        assert forall i :: 0 <= i < n ==> front[i] == exprs[i];
      }
    }
  }

  lemma LookupSkipsOtherRules(f: FilterSet, expr: string, g: int, tag: string)
    requires !Names(expr, tag)
    ensures LookupIn(AddRule(f, expr).0.list, g, tag) == LookupIn(f.list, g, tag)
  {
    assert forall x: Filter :: ([x] + f.list)[1..] == f.list;
  }

  lemma LaterRuleKeepsLast(exprs: seq<string>, tag: string, k: int)
    requires exprs != [] && !Names(exprs[|exprs| - 1], tag) && LastNaming(exprs[..|exprs| - 1], tag, k)
    ensures LastNaming(exprs, tag, k)
  {
    var front := exprs[..|exprs| - 1];
    assert forall j :: 0 <= j < |front| ==> front[j] == exprs[j];
  }

  lemma {:induction false} LookupOfNamed(exprs: seq<string>, tag: string, i: int) returns (k: int)
    requires 0 <= i < |exprs| && Names(exprs[i], tag)
    ensures LastNaming(exprs, tag, k) && ParseRule(exprs[k]).pri == Lookup(AddAll(FRESH, exprs), tag)
    decreases |exprs|
  {
    var front, n := exprs[..|exprs| - 1], |exprs| - 1;
    RulesKeepWellFormed(FRESH, exprs);
    if Names(exprs[n], tag) {
      k := n;
    } else {
      assert front[i] == exprs[i];
      k := LookupOfNamed(front, tag, i);
      LaterRuleKeepsLast(exprs, tag, k);
      var before, g := AddAll(FRESH, front), AddAll(FRESH, exprs).globalPri;
      LookupSkipsOtherRules(before, exprs[n], g, tag);
      RulesKeepWellFormed(FRESH, front);
      FiltersComeFromRules(front, tag);
      LookupIgnoresGlobal(before.list, before.globalPri, g, tag);
    }
  }

  /** The prepend-only list refines a map: a lookup finds the last rule. */
  lemma LookupIsLastRule(exprs: seq<string>, tag: string)
    ensures RulesGive(exprs, tag, Lookup(AddAll(FRESH, exprs), tag))
  {
    if i :| 0 <= i < |exprs| && Names(exprs[i], tag) {
      var k := LookupOfNamed(exprs, tag, i);
    } else {
      FiltersComeFromRules(exprs, tag);
      var f := AddAll(FRESH, exprs);
      LookupWithoutFilter(f.list, f.globalPri, tag);
      GlobalIsLastRule(exprs);
    }
  }

  // ----- filter strings

  predicate IsSeparator(c: char) { c == ' ' || c == '\t' || c == ',' }

  lemma SeparatorsAre(c: char)
    ensures IsSeparator(c) <==> c in " \t,"
  {
  }

  /** n is the place of the first separator, or the length. */
  predicate CutsAt(s: string, n: nat) {
    n <= |s| && (forall i :: 0 <= i < n ==> !IsSeparator(s[i])) && (n < |s| ==> IsSeparator(s[n]))
  }

  /** Where `strsep` cuts. */
  function SeparatorIndex(s: string): (n: nat)
    ensures CutsAt(s, n)
  {
    if s == "" || IsSeparator(s[0]) then 0 else 1 + SeparatorIndex(s[1..])
  }

  /** The tokens `strsep` returns one after the other, empty ones included. */
  function Split(s: string): seq<string> {
    var n := SeparatorIndex(s);
    if n == |s| then [s] else [s[..n]] + Split(s[n + 1..])
  }

  /** The loop of `log_add_filter_string`: stops at the first bad token and keeps the rules before it. */
  function AddTokens(f: FilterSet, tokens: seq<string>): (FilterSet, bool)
    decreases tokens
  {
    if tokens == [] then (f, true)
    else if tokens[0] == "" then AddTokens(f, tokens[1..])
    else
      var (g, ok) := AddRule(f, tokens[0]);
      if ok then AddTokens(g, tokens[1..]) else (g, false)
  }

  /** `log_add_filter_string`. */
  function AddString(f: FilterSet, s: string): (FilterSet, bool) {
    AddTokens(f, Split(s))
  }

  lemma SplitAt(s: string, n: nat)
    requires CutsAt(s, n)
    ensures Split(s) == if n == |s| then [s] else [s[..n]] + Split(s[n + 1..])
  {
    var m := SeparatorIndex(s);
    assert m == n;
  }

  lemma CutConcat(a: string, c: char, b: string, n: nat)
    requires n < |a|
    ensures (a + [c] + b)[..n] == a[..n] && (a + [c] + b)[n + 1..] == a[n + 1..] + [c] + b
  {
  }

  lemma {:induction false} SplitConcat(a: string, c: char, b: string)
    requires c in " \t,"
    ensures Split(a + [c] + b) == Split(a) + Split(b)
    decreases |a|
  {
    var s, n := a + [c] + b, SeparatorIndex(a);
    SeparatorsAre(c);
    SplitAt(a, n);
    SplitAt(s, n);
    if n == |a| {
      assert s[..n] == a && s[n + 1..] == b;
    } else {
      CutConcat(a, c, b, n);
      SplitConcat(a[n + 1..], c, b);
      Assoc([a[..n]], Split(a[n + 1..]), Split(b));
    }
  }

  lemma {:induction false} AddTokensConcat(f: FilterSet, a: seq<string>, b: seq<string>)
    ensures AddTokens(f, a + b) == if AddTokens(f, a).1 then AddTokens(AddTokens(f, a).0, b) else AddTokens(f, a)
    decreases a
  {
    if a == [] {
      assert a + b == b;
    } else {
      assert (a + b)[1..] == a[1..] + b && (a + b)[0] == a[0];
      AddTokensConcat(if a[0] == "" then f else AddRule(f, a[0]).0, a[1..], b);
    }
  }

  /** A string of two parts adds the first and then, if that worked, the second. */
  lemma AddStringConcat(f: FilterSet, a: string, c: char, b: string)
    requires c in " \t,"
    ensures AddString(f, a + [c] + b)
         == if AddString(f, a).1 then AddString(AddString(f, a).0, b) else AddString(f, a)
  {
    SplitConcat(a, c, b);
    AddTokensConcat(f, Split(a), Split(b));
  }

  /** One token of the loop. */
  lemma AddStringStep(f: FilterSet, s: string, n: nat)
    requires CutsAt(s, n)
    ensures n == 0 ==> AddString(f, s) == if s != "" then AddString(f, s[1..]) else (f, true)
    ensures n > 0 ==> var r := AddRule(f, s[..n]);
                      AddString(f, s) == if r.1 && n < |s| then AddString(r.0, s[n + 1..]) else r
  {
    SplitAt(s, n);
    var rest := if n == |s| then [] else Split(s[n + 1..]);
    var tokens := [s[..n]] + rest;
    assert Split(s) == tokens by { assert s[..|s|] == s; }
    assert tokens[0] == s[..n] && tokens[1..] == rest;
    assert n == 0 <==> |s[..n]| == 0;
    var g := if n == 0 then f else AddRule(f, s[..n]).0;
    assert AddTokens(g, []) == (g, true);
    if n == 0 {
      assert AddTokens(f, tokens) == AddTokens(f, rest);
    }
  }

  /** A word without separators is one rule. With AddStringConcat this fixes AddString everywhere. */
  lemma AddStringOfWord(f: FilterSet, word: string)
    requires forall i :: 0 <= i < |word| ==> word[i] !in " \t,"
    ensures AddString(f, word) == if word == "" then (f, true) else AddRule(f, word)
  {
    forall i | 0 <= i < |word| ensures !IsSeparator(word[i]) {
      SeparatorsAre(word[i]);
    }
    AddStringStep(f, word, |word|);
    assert word[..|word|] == word;
  }

  lemma TailCut(s: string, cur: nat, end: nat)
    requires cur <= end <= |s|
    ensures s[cur..][..end - cur] == s[cur..end]
    ensures end < |s| ==> s[cur..][end - cur + 1..] == s[end + 1..]
  {
  }

  /** The same for the token that starts at cur. */
  lemma AddTailStep(f: FilterSet, s: string, cur: nat, end: nat)
    requires cur <= end <= |s| && CutsAt(s[cur..], end - cur)
    ensures cur == end ==> AddString(f, s[cur..]) == if end < |s| then AddString(f, s[end + 1..]) else (f, true)
    ensures cur < end ==> var r := AddRule(f, s[cur..end]);
                          AddString(f, s[cur..]) == if r.1 && end < |s| then AddString(r.0, s[end + 1..]) else r
  {
    TailCut(s, cur, end);
    AddStringStep(f, s[cur..], end - cur);
  }

  /** Extra separators anywhere change nothing. */
  lemma LeadingSeparator(f: FilterSet, c: char, s: string)
    requires c in " \t,"
    ensures AddString(f, [c] + s) == AddString(f, s)
  {
    SeparatorsAre(c);
    AddStringStep(f, [c] + s, 0);
    assert ([c] + s)[1..] == s;
  }

  lemma TrailingSeparator(f: FilterSet, s: string, c: char)
    requires c in " \t,"
    ensures AddString(f, s + [c]) == AddString(f, s)
  {
    AddStringConcat(f, s, c, "");
    assert s + [c] + "" == s + [c];
    AddStringStep(AddString(f, s).0, "", 0);
  }

  lemma DoubledSeparator(f: FilterSet, a: string, c: char, d: char, b: string)
    requires c in " \t," && d in " \t,"
    ensures AddString(f, a + [c] + ([d] + b)) == AddString(f, a + [c] + b)
  {
    AddStringConcat(f, a, c, [d] + b);
    AddStringConcat(f, a, c, b);
    LeadingSeparator(AddString(f, a).0, d, b);
  }

  // ----- dump

  function DumpLine(tag: string, pri: int): string {
    tag + ":" + [FilterPriToChar(pri)] + "\n"
  }

  function DumpList(list: seq<Filter>, globalPri: int): seq<string> {
    if list == [] then []
    else [DumpLine(list[0].tag, if list[0].pri == DEFAULT then globalPri else list[0].pri)]
         + DumpList(list[1..], globalPri)
  }

  /** The lines `dump_filters` prints. */
  function Dump(f: FilterSet): seq<string> {
    DumpList(f.list, f.globalPri) + [DumpLine("*", f.globalPri)]
  }

  function Reverse(lines: seq<string>): seq<string> {
    if lines == [] then [] else Reverse(lines[1..]) + [lines[0]]
  }

  lemma {:induction false} ReverseAppend(lines: seq<string>, l: string)
    ensures Reverse(lines + [l]) == [l] + Reverse(lines)
  {
    if lines != [] {
      ReverseAppend(lines[1..], l);
      assert (lines + [l])[1..] == lines[1..] + [l];
    }
  }

  lemma DumpLineParses(tag: string, pri: int)
    requires tag != "" && ':' !in tag && Settled(pri)
    ensures ParseRule(DumpLine(tag, pri)) == if tag == "*" then Global(pri) else ForTag(tag, pri)
    ensures |DumpLine(tag, pri)| == |tag| + 3 && DumpLine(tag, pri)[|tag| + 1..] == ["VDIWEFS"[pri - 2], '\n']
  {
    var line := DumpLine(tag, pri);
    assert line[|tag|] == ':' && line[..|tag|] == tag;
    assert TagLength(line) == |tag|;
    PriCharRoundTrip(pri);
    PrioritiesInNumbers(pri - 2);
  }

  lemma {:induction false} DumpListReloads(list: seq<Filter>, globalPri: int, f: FilterSet)
    requires WellFormed(FilterSet(globalPri, list)) && f.globalPri == globalPri && f.list == []
    ensures AddAll(f, Reverse(DumpList(list, globalPri))) == FilterSet(globalPri, list)
  {
    if list != [] {
      DumpListReloads(list[1..], globalPri, f);
      DumpLineParses(list[0].tag, list[0].pri);
      var later := Reverse(DumpList(list[1..], globalPri));
      var line := DumpLine(list[0].tag, list[0].pri);
      assert (later + [line])[..|later|] == later;
      assert list == [list[0]] + list[1..];
    }
  }

  /** Feeding the dump back, last line first, rebuilds any state that rules can reach. */
  lemma DumpRoundTrip(exprs: seq<string>)
    ensures var f := AddAll(FRESH, exprs); AddAll(FRESH, Reverse(Dump(f))) == f
  {
    RulesKeepWellFormed(FRESH, exprs);
    var f := AddAll(FRESH, exprs);
    var lines, last := DumpList(f.list, f.globalPri), DumpLine("*", f.globalPri);
    ReverseAppend(lines, last);
    AddAllConcat(FRESH, [last], Reverse(lines));
    DumpLineParses("*", f.globalPri);
    assert AddAll(FRESH, [last]) == AddRule(FRESH, last).0 by { assert [last][..0] == []; }
    DumpListReloads(f.list, f.globalPri, FilterSet(f.globalPri, []));
  }

  // ----- the program's form

  class LogFormat {
    var globalPri: int
    var filters: seq<Filter>

    constructor ()
      ensures Abs() == FRESH
    {
      globalPri, filters := SILENT, [];
    }

    function Abs(): FilterSet
      reads this
    {
      FilterSet(globalPri, filters)
    }

    method FilterPriForTag(tag: string) returns (pri: int)
      ensures pri == Lookup(Abs(), tag)
    {
      var rest := filters;
      while rest != []
        invariant LookupIn(rest, globalPri, tag) == Lookup(Abs(), tag)
        decreases |rest|
      {
        if rest[0].tag == tag {
          if rest[0].pri == DEFAULT {
            return globalPri;
          } else {
            return rest[0].pri;
          }
        }
        rest := rest[1..];
      }
      return globalPri;
    }

    method ShouldPrintLine(tag: string, pri: Uint32) returns (show: bool)
      ensures show <==> pri >= Lookup(Abs(), tag)
    {
      var least := FilterPriForTag(tag);
      return pri >= least;
    }

    /** 0, or -1 with nothing changed. */
    method AddFilterRule(expr: string) returns (ret: int)
      modifies this
      ensures ret == if AddRule(old(Abs()), expr).1 then 0 else -1
      ensures Abs() == AddRule(old(Abs()), expr).0
    {
      var pri := DEFAULT;
      var tagNameLength := TagLength(expr);
      if tagNameLength == 0 {
        return -1;
      }
      if tagNameLength < |expr| {
        pri := FilterCharToPri(if tagNameLength + 1 < |expr| then expr[tagNameLength + 1] else '\0');
        if pri == UNKNOWN {
          return -1;
        }
      }
      if expr[..tagNameLength] == "*" {
        if pri == DEFAULT {
          pri := DEBUG;
        }
        globalPri := pri;
      } else {
        if pri == DEFAULT {
          pri := VERBOSE;
        }
        filters := [Filter(expr[..tagNameLength], pri)] + filters;
      }
      return 0;
    }

    /** The scan of `strsep`. */
    method FindSeparator(s: string, cur: nat) returns (end: nat)
      requires cur <= |s|
      ensures cur <= end <= |s| && CutsAt(s[cur..], end - cur)
    {
      end := cur;
      while end < |s| && !IsSeparator(s[end])
        invariant cur <= end <= |s|
        invariant forall i :: cur <= i < end ==> !IsSeparator(s[i])
      {
        end := end + 1;
      }
    }

    /** One turn of the loop over the tokens; `more` says whether p_cur is not NULL after it. */
    method AddNextToken(s: string, cur: nat) returns (err: int, next: nat, more: bool)
      requires cur <= |s|
      modifies this
      ensures more ==> cur < next <= |s|
      ensures AddString(old(Abs()), s[cur..])
           == if err < 0 then (Abs(), false) else if more then AddString(Abs(), s[next..]) else (Abs(), true)
    {
      var end := FindSeparator(s, cur);
      var token := s[cur..end];
      AddTailStep(Abs(), s, cur, end);
      err := 0;
      if token != "" {
        err := AddFilterRule(token);
      }
      next, more := end + 1, end < |s|;
    }

    method AddFilterString(s: string) returns (ret: int)
      modifies this
      ensures ret == if AddString(old(Abs()), s).1 then 0 else -1
      ensures Abs() == AddString(old(Abs()), s).0
    {
      var cur := 0;
      var more := true; // p_cur is not NULL
      ghost var result := AddString(Abs(), s);
      while more
        invariant 0 <= cur <= |s|
        invariant result == if more then AddString(Abs(), s[cur..]) else (Abs(), true)
        decreases more, |s| - cur
      {
        var err, next;
        err, next, more := AddNextToken(s, cur);
        if err < 0 {
          return -1;
        }
        if more {
          cur := next;
        }
      }
      return 0;
    }

    method DumpFilters() returns (lines: seq<string>)
      ensures lines == Dump(Abs())
    {
      lines := [];
      var rest := filters;
      while rest != []
        invariant lines + DumpList(rest, globalPri) == DumpList(filters, globalPri)
        decreases |rest|
      {
        var pri := if rest[0].pri == DEFAULT then globalPri else rest[0].pri;
        lines := lines + [DumpLine(rest[0].tag, pri)];
        rest := rest[1..];
      }
      lines := lines + [DumpLine("*", globalPri)];
    }
  }
}
