/** The line formatter (`log_format_log_line` in logprint.c): a counting pass sizes the buffer, a
    writing pass fills it at a moving cursor. The header text that snprintf and strftime produce
    is a parameter. */
module Formatter {
  import opened Sequences

  const NUL: char := '\0'
  const NL: char := '\n'

  predicate NulFreeUpTo(s: string, n: nat)
    requires n <= |s|
  {
    forall i :: 0 <= i < n ==> s[i] != NUL
  }

  predicate NulFree(s: string) {
    NulFreeUpTo(s, |s|)
  }

  // ----- what the output should be

  /** n is the place of the first newline, or the length. */
  predicate EndsLine(s: string, n: nat) {
    n <= |s| && (forall i :: 0 <= i < n ==> s[i] != NL) && (n < |s| ==> s[n] == NL)
  }

  function LineEnd(s: string): (n: nat)
    ensures EndsLine(s, n)
  {
    if s == "" || s[0] == NL then 0 else 1 + LineEnd(s[1..])
  }

  /** The message cut at newlines, without an empty line after the last one. */
  function Lines(s: string): seq<string> {
    if s == "" then []
    else
      var n := LineEnd(s);
      if n == |s| then [s] else [s[..n]] + Lines(s[n + 1..])
  }

  function Render(lines: seq<string>, prefix: string, suffix: string): string {
    if lines == [] then "" else prefix + lines[0] + suffix + Render(lines[1..], prefix, suffix)
  }

  /** The non-LONG formats decorate every line, LONG wraps the message as a whole. */
  function Decorated(long: bool, prefix: string, suffix: string, message: string): string {
    if long then prefix + message + suffix else Render(Lines(message), prefix, suffix)
  }

  // ----- the two passes agree

  function Newlines(s: string): nat {
    if s == "" then 0 else (if s[|s| - 1] == NL then 1 else 0) + Newlines(s[..|s| - 1])
  }

  predicate EndsOpen(s: string) {
    s != "" && s[|s| - 1] != NL
  }

  /** What the counting pass computes. */
  function CountedLines(s: string): nat {
    Newlines(s) + if EndsOpen(s) then 1 else 0
  }

  lemma {:induction false} NewlinesConcat(a: string, b: string)
    ensures Newlines(a + b) == Newlines(a) + Newlines(b)
  {
    if b == "" {
      assert a + b == a;
    } else {
      NewlinesConcat(a, b[..|b| - 1]);
      assert (a + b)[..|a + b| - 1] == a + b[..|b| - 1];
    }
  }

  lemma {:induction false} NoNewlines(s: string)
    requires forall i :: 0 <= i < |s| ==> s[i] != NL
    ensures Newlines(s) == 0
  {
    if s != "" {
      NoNewlines(s[..|s| - 1]);
    }
  }

  function TotalLength(lines: seq<string>): nat {
    if lines == [] then 0 else |lines[0]| + TotalLength(lines[1..])
  }

  lemma LinesStep(s: string, n: nat)
    requires s != "" && EndsLine(s, n)
    ensures Lines(s) == [s[..n]] + (if n < |s| then Lines(s[n + 1..]) else [])
  {
    assert LineEnd(s) == n;
    if n == |s| {
      assert s[..n] == s && [s] + [] == [s];
    }
  }

  lemma LinesAre(s: string, n: nat, first: string, rest: string)
    requires s != "" && EndsLine(s, n) && first == s[..n] && rest == if n < |s| then s[n + 1..] else ""
    ensures Lines(s) == [first] + Lines(rest)
  {
    LinesStep(s, n);
  }

  lemma NewlinesStep(s: string, n: nat)
    requires EndsLine(s, n)
    ensures Newlines(s) == if n < |s| then 1 + Newlines(s[n + 1..]) else 0
  {
    NoNewlines(s[..n]);
    if n < |s| {
      assert s == s[..n] + [NL] + s[n + 1..];
      assert [NL][..0] == "";
      NewlinesConcat(s[..n] + [NL], s[n + 1..]);
      NewlinesConcat(s[..n], [NL]);
    } else {
      assert s[..n] == s;
    }
  }

  lemma CutLine(s: string, n: nat)
    requires n < |s| && s[n] == NL
    ensures s == s[..n] + [NL] + s[n + 1..] && EndsOpen(s[n + 1..]) == EndsOpen(s)
  {
  }

  lemma TotalStep(line: string, rest: seq<string>)
    ensures TotalLength([line] + rest) == |line| + TotalLength(rest)
  {
    assert ([line] + rest)[1..] == rest;
  }

  /** The writing pass makes one line for each line counted, and keeps every other character. */
  lemma {:induction false} PassesAgree(s: string)
    ensures |Lines(s)| == CountedLines(s)
    ensures TotalLength(Lines(s)) + Newlines(s) == |s|
    decreases |s|
  {
    if s != "" {
      var n := LineEnd(s);
      var rest := if n < |s| then s[n + 1..] else "";
      PassesAgree(rest);
      LinesAre(s, n, s[..n], rest);
      TotalStep(s[..n], Lines(rest));
      NewlinesStep(s, n);
      if n < |s| {
        CutLine(s, n);
      }
    }
  }

  lemma {:induction false} RenderLength(lines: seq<string>, prefix: string, suffix: string)
    ensures |Render(lines, prefix, suffix)| == |lines| * (|prefix| + |suffix|) + TotalLength(lines)
  {
    if lines != [] {
      RenderLength(lines[1..], prefix, suffix);
      var c := |prefix| + |suffix|;
      assert |lines| * c == (|lines| - 1) * c + c;
    }
  }

  /** The exact length of the non-LONG output, in terms of the counting pass. */
  lemma FormattedLength(prefix: string, suffix: string, message: string)
    ensures |Decorated(false, prefix, suffix, message)|
         == CountedLines(message) * (|prefix| + |suffix|) + |message| - Newlines(message)
  {
    PassesAgree(message);
    RenderLength(Lines(message), prefix, suffix);
  }

  lemma RenderStep(line: string, rest: seq<string>, prefix: string, suffix: string)
    ensures Render([line] + rest, prefix, suffix) == prefix + line + suffix + Render(rest, prefix, suffix)
  {
    assert ([line] + rest)[1..] == rest;
  }

  lemma RawStep(line: string, rest: string, tail: string)
    ensures "" + line + [NL] + (rest + tail) == line + [NL] + rest + tail
  {
  }

  /** Rendering without decoration gives the message back, closed with a newline: cutting into
      lines loses nothing but that. */
  lemma {:induction false} RawRendering(message: string)
    ensures Render(Lines(message), "", [NL]) == message + if EndsOpen(message) then [NL] else ""
    decreases |message|
  {
    if message != "" {
      var n := LineEnd(message);
      LinesStep(message, n);
      if n == |message| {
        assert [message[..n]] + [] == [message[..n]] && message[..n] == message;
        RenderStep(message, [], "", [NL]);
      } else {
        CutLine(message, n);
        RawRendering(message[n + 1..]);
        RenderStep(message[..n], Lines(message[n + 1..]), "", [NL]);
        RawStep(message[..n], message[n + 1..], if EndsOpen(message) then [NL] else "");
      }
    }
  }

  lemma {:induction false} LinesHaveNoNewline(message: string)
    ensures forall l :: l in Lines(message) ==> NL !in l
    decreases |message|
  {
    if message != "" {
      var n := LineEnd(message);
      LinesStep(message, n);
      if n < |message| {
        LinesHaveNoNewline(message[n + 1..]);
      }
    }
  }

  // ----- formats

  datatype Format = Brief | Process | Tag | Thread | Raw | Time | ThreadTime | Long

  /** What fits a 128-character buffer with its NUL. */
  function Clamp(s: string): string {
    if |s| >= 128 then s[..127] else s
  }

  /** `header` is what snprintf would print for the format. */
  function Prefix(format: Format, header: string): string {
    if format.Raw? then "" else Clamp(header)
  }

  function Suffix(format: Format, tag: string): string {
    match format
    case Process => Clamp("  (" + tag + ")" + [NL])
    case Long => [NL, NL]
    case _ => [NL]
  }

  /** Every output line ends in a newline, except that the PROCESS suffix, clamped to 127
      characters, loses it to a long tag. */
  lemma SuffixEndsLine(format: Format, tag: string)
    ensures var suffix := Suffix(format, tag);
            suffix != "" && (suffix[|suffix| - 1] == NL <==>
              !format.Process? || |tag| <= 122 || (|tag| > 123 && tag[123] == NL))
  {
    if format.Process? {
      var text := "  (" + tag + ")" + [NL];
      assert |text| == |tag| + 5;
      assert |tag| > 123 ==> text[126] == tag[123];
    }
  }

  function Formatted(format: Format, header: string, tag: string, message: string): string {
    Decorated(format.Long?, Prefix(format, header), Suffix(format, tag), message)
  }

  /** Every output that is not empty ends in a newline, exactly unless the PROCESS suffix has lost it. */
  lemma OutputEndsLine(format: Format, header: string, tag: string, message: string)
    ensures var out := Formatted(format, header, tag, message);
            && (out == "" <==> !format.Long? && message == "")
            && (out != "" ==> (out[|out| - 1] == NL <==>
                  !format.Process? || |tag| <= 122 || (|tag| > 123 && tag[123] == NL)))
  {
    SuffixEndsLine(format, tag);
    if !format.Long? && message != "" {
      RenderEnds(Lines(message), Prefix(format, header), Suffix(format, tag));
      LinesStep(message, LineEnd(message));
    }
  }

  lemma {:induction false} RenderEnds(lines: seq<string>, prefix: string, suffix: string)
    requires lines != [] && suffix != ""
    ensures var out := Render(lines, prefix, suffix); out != "" && out[|out| - 1] == suffix[|suffix| - 1]
  {
    if |lines| > 1 {
      RenderEnds(lines[1..], prefix, suffix);
    }
  }

  lemma LineNewlines(prefix: string, line: string, suffix: string, rest: string)
    requires NL !in line
    ensures Newlines(prefix + line + suffix + rest) == Newlines(prefix) + Newlines(suffix) + Newlines(rest)
  {
    NewlinesConcat(prefix + line + suffix, rest);
    NewlinesConcat(prefix + line, suffix);
    NewlinesConcat(prefix, line);
    NoNewlines(line);
  }

  lemma {:induction false} RenderNewlines(lines: seq<string>, prefix: string, suffix: string)
    requires Newlines(prefix) == 0 && Newlines(suffix) == 1 && forall l :: l in lines ==> NL !in l
    ensures Newlines(Render(lines, prefix, suffix)) == |lines|
  {
    if lines != [] {
      assert lines[0] in lines;
      RenderNewlines(lines[1..], prefix, suffix);
      LineNewlines(prefix, lines[0], suffix, Render(lines[1..], prefix, suffix));
    }
  }

  /** The output of a message has as many lines as the message, where header and tag add none; the
      LONG format sets it between the header and an empty line. */
  lemma FormattedLines(format: Format, header: string, tag: string, message: string)
    requires !format.Long? ==> NL !in header && NL !in tag && |tag| <= 122
    ensures Newlines(Formatted(format, header, tag, message))
         == if format.Long? then Newlines(Prefix(format, header)) + Newlines(message) + 2 else |Lines(message)|
  {
    if format.Long? {
      NewlinesConcat(Prefix(format, header) + message, [NL, NL]);
      NewlinesConcat(Prefix(format, header), message);
      NewlinesConcat([NL], [NL]);
      OneNewline([NL]);
      assert [NL] + [NL] == [NL, NL];
    } else {
      DecorationNewlines(format, header, tag);
      LinesHaveNoNewline(message);
      RenderNewlines(Lines(message), Prefix(format, header), Suffix(format, tag));
    }
  }

  lemma DecorationNewlines(format: Format, header: string, tag: string)
    requires !format.Long? && NL !in header && NL !in tag && |tag| <= 122
    ensures Newlines(Prefix(format, header)) == 0 && Newlines(Suffix(format, tag)) == 1
  {
    NoNewlines(Prefix(format, header));
    if format.Process? {
      var text := "  (" + tag + ")";
      assert text + [NL] == Suffix(format, tag) && (text + [NL])[..|text|] == text;
      OneNewline(text + [NL]);
    } else {
      OneNewline([NL]);
    }
  }

  lemma OneNewline(s: string)
    requires s != "" && s[|s| - 1] == NL && NL !in s[..|s| - 1]
    ensures Newlines(s) == 1
  {
    NoNewlines(s[..|s| - 1]);
  }

  /** A tag of 123 letters: the line runs into whatever is written next. */
  lemma LongTagLosesNewline(header: string)
    ensures var tag := seq(123, _ => 'a'); var out := Formatted(Process, header, tag, "x");
            NulFree(tag) && out != "" && out[|out| - 1] != NL
  {
    OutputEndsLine(Process, header, seq(123, _ => 'a'), "x");
  }

  // ----- the output in full

  lemma DecorationIs(format: Format, header: string, tag: string)
    ensures Prefix(format, header) == if format == Raw then "" else header[..if |header| < 127 then |header| else 127]
    ensures var last := "  (" + tag + ")\n";
            Suffix(format, tag) == if format == Process then last[..if |last| < 127 then |last| else 127]
                                   else if format == Long then "\n\n" else "\n"
  {
    var last := "  (" + tag + ")\n";
    assert last == "  (" + tag + ")" + [NL];
    assert last[..|last|] == last && header[..|header|] == header;
  }

  /** A message of one line: up to 127 characters of the header (RAW: none), the line, and a newline or
      for PROCESS up to 127 characters of the tag in parentheses and a newline. */
  lemma FormattedLine(format: Format, header: string, tag: string, line: string)
    requires format != Long && line != "" && '\n' !in line
    ensures var first := if format == Raw then "" else header[..if |header| < 127 then |header| else 127];
            var tagged := "  (" + tag + ")\n";
            var last := if format == Process then tagged[..if |tagged| < 127 then |tagged| else 127] else "\n";
            Formatted(format, header, tag, line) == first + line + last
  {
    DecorationIs(format, header, tag);
    LinesStep(line, |line|);
    assert line[..|line|] == line && Lines(line) == [line] + [];
    RenderStep(line, [], Prefix(format, header), Suffix(format, tag));
    var all := Prefix(format, header) + line + Suffix(format, tag);
    assert all + "" == all;
  }

  /** And so for each line of a message of several, empty ones included. */
  lemma FormattedNext(format: Format, header: string, tag: string, line: string, rest: string)
    requires format != Long && '\n' !in line
    ensures var first := if format == Raw then "" else header[..if |header| < 127 then |header| else 127];
            var tagged := "  (" + tag + ")\n";
            var last := if format == Process then tagged[..if |tagged| < 127 then |tagged| else 127] else "\n";
            Formatted(format, header, tag, line + "\n" + rest) == first + line + last + Formatted(format, header, tag, rest)
  {
    DecorationIs(format, header, tag);
    var message := line + "\n" + rest;
    assert EndsLine(message, |line|) && message[..|line|] == line && message[|line| + 1..] == rest;
    LinesStep(message, |line|);
    RenderStep(line, Lines(rest), Prefix(format, header), Suffix(format, tag));
  }

  /** LONG sets the whole message, newlines included, behind the header and before an empty line; an
      empty message is printed there only. */
  lemma FormattedLong(header: string, tag: string, message: string)
    ensures Formatted(Long, header, tag, message) == header[..if |header| < 127 then |header| else 127] + message + "\n\n"
    ensures forall format :: format != Long ==> Formatted(format, header, tag, "") == ""
  {
    DecorationIs(Long, header, tag);
  }

  // ----- the program's form

  /** strncat where the destination cursor already sits on the terminating NUL. */
  method Strncat(buf: array<char>, p: nat, src: string, n: nat)
    requires n <= |src| && NulFreeUpTo(src, n)
    requires p + n < buf.Length && buf[p] == NUL
    modifies buf
    ensures buf[..p + n] == old(buf[..p]) + src[..n] && buf[p + n] == NUL
  {
    var k := 0;
    while k < n && src[k] != NUL
      invariant k <= n
      invariant buf[..p] == old(buf[..p])
      invariant buf[p..p + k] == src[..k]
    {
      buf[p + k] := src[k];
      k := k + 1;
    }
    buf[p + n] := NUL;
    assert buf[..p + n] == buf[..p] + buf[p..p + n];
  }

  method Strcat(buf: array<char>, p: nat, s: string)
    requires NulFree(s) && p + |s| < buf.Length && buf[p] == NUL
    modifies buf
    ensures buf[..p + |s|] == old(buf[..p]) + s && buf[p + |s|] == NUL
  {
    assert s[..|s|] == s;
    Strncat(buf, p, s, |s|);
  }

  /** The counting pass. `message` is the memory from the message pointer on. */
  method CountLines(message: string, messageLen: nat) returns (numLines: nat)
    requires messageLen <= |message|
    ensures numLines == CountedLines(message[..messageLen])
  {
    numLines := 0;
    var pm := 0;
    while pm < messageLen
      invariant pm <= messageLen && numLines == Newlines(message[..pm])
    {
      assert message[..pm + 1][..pm] == message[..pm];
      if message[pm] == NL {
        numLines := numLines + 1;
      }
      pm := pm + 1;
    }
    if pm > 0 && message[pm - 1] != NL {
      numLines := numLines + 1;
    }
  }

  /** One turn of the writing loop: a decorated line at the cursor. */
  method WriteLine(buf: array<char>, p: nat, prefix: string, line: string, lineLen: nat, suffix: string) returns (q: nat)
    requires NulFree(prefix) && NulFree(suffix) && lineLen <= |line| && NulFreeUpTo(line, lineLen)
    requires p + |prefix| + lineLen + |suffix| < buf.Length && buf[p] == NUL
    modifies buf
    ensures q == p + |prefix| + lineLen + |suffix| && buf[q] == NUL
    ensures buf[..q] == old(buf[..p]) + (prefix + line[..lineLen] + suffix)
  {
    q := p;
    Strcat(buf, q, prefix);
    q := q + |prefix|;
    Strncat(buf, q, line, lineLen);
    q := q + lineLen;
    Strcat(buf, q, suffix);
    q := q + |suffix|;
    assert old(buf[..p]) + prefix + line[..lineLen] + suffix == old(buf[..p]) + (prefix + line[..lineLen] + suffix);
  }

  /** The slice of the message that is left, seen from its own start. */
  lemma Slices(message: string, messageLen: nat, pm: nat, end: nat)
    requires pm < messageLen <= |message| && pm <= end <= messageLen
    requires forall i :: pm <= i < end ==> message[i] != NL
    requires end < messageLen ==> message[end] == NL
    ensures var here, n := message[pm..messageLen], end - pm;
            && here != "" && EndsLine(here, n) && message[pm..end] == here[..n]
            && message[if end < messageLen then end + 1 else end..messageLen] == if n < |here| then here[n + 1..] else ""
  {
  }

  /** The line from pm to end, and what is left after it. */
  lemma LinesFrom(message: string, messageLen: nat, pm: nat, end: nat)
    requires pm < messageLen <= |message| && pm <= end <= messageLen
    requires forall i :: pm <= i < end ==> message[i] != NL
    requires end < messageLen ==> message[end] == NL
    ensures var next := if end < messageLen then end + 1 else end;
            Lines(message[pm..messageLen]) == [message[pm..end]] + Lines(message[next..messageLen])
  {
    Slices(message, messageLen, pm, end);
    LinesAre(message[pm..messageLen], end - pm, message[pm..end],
             message[if end < messageLen then end + 1 else end..messageLen]);
  }

  /** One line of the rendering behind what has been written. */
  lemma LoopTurn(message: string, messageLen: nat, pm: nat, end: nat, prefix: string, suffix: string, before: string)
    requires pm < messageLen <= |message| && pm <= end <= messageLen
    requires forall i :: pm <= i < end ==> message[i] != NL
    requires end < messageLen ==> message[end] == NL
    ensures var next := if end < messageLen then end + 1 else end;
            var lines, rest := Lines(message[pm..messageLen]), Lines(message[next..messageLen]);
            && |lines| == 1 + |rest| && |prefix + message[pm..end] + suffix| <= |Render(lines, prefix, suffix)|
            && before + Render(lines, prefix, suffix)
               == before + (prefix + message[pm..end] + suffix) + Render(rest, prefix, suffix)
  {
    LinesFrom(message, messageLen, pm, end);
    var next := if end < messageLen then end + 1 else end;
    RenderStep(message[pm..end], Lines(message[next..messageLen]), prefix, suffix);
    Assoc(before, prefix + message[pm..end] + suffix, Render(Lines(message[next..messageLen]), prefix, suffix));
  }

  lemma LineAt(message: string, messageLen: nat, pm: nat, end: nat)
    requires pm <= end <= messageLen <= |message| && NulFreeUpTo(message, messageLen)
    ensures message[pm..][..end - pm] == message[pm..end] && NulFreeUpTo(message[pm..], end - pm)
  {
  }

  method FindNewline(message: string, messageLen: nat, pm: nat) returns (end: nat)
    requires pm <= messageLen <= |message|
    ensures pm <= end <= messageLen && (end < messageLen ==> message[end] == NL)
    ensures forall i :: pm <= i < end ==> message[i] != NL
  {
    end := pm;
    while end < messageLen && message[end] != NL
      invariant pm <= end <= messageLen
      invariant forall i :: pm <= i < end ==> message[i] != NL
    {
      end := end + 1;
    }
  }

  /** One iteration of the writing loop. */
  method WriteNextLine(buf: array<char>, p: nat, message: string, messageLen: nat, pm: nat, prefix: string, suffix: string)
    returns (q: nat, next: nat)
    requires NulFree(prefix) && NulFree(suffix)
    requires pm < messageLen < |message| && NulFreeUpTo(message, messageLen) && message[messageLen] == NUL
    requires p + |Render(Lines(message[pm..messageLen]), prefix, suffix)| < buf.Length && buf[p] == NUL
    modifies buf
    ensures pm < next <= messageLen && q < buf.Length && buf[q] == NUL
    ensures |Lines(message[pm..messageLen])| == 1 + |Lines(message[next..messageLen])|
    ensures buf[..q] + Render(Lines(message[next..messageLen]), prefix, suffix)
         == old(buf[..p]) + Render(Lines(message[pm..messageLen]), prefix, suffix)
  {
    var end := FindNewline(message, messageLen, pm);
    var lineLen := end - pm;
    LoopTurn(message, messageLen, pm, end, prefix, suffix, buf[..p]);
    LineAt(message, messageLen, pm, end);
    q := WriteLine(buf, p, prefix, message[pm..], lineLen, suffix);
    next := if message[end] == NL then end + 1 else end;
  }

  /** The writing pass of the non-LONG formats; `passes` counts its iterations. */
  method WriteLines(buf: array<char>, message: string, messageLen: nat, prefix: string, suffix: string)
    returns (p: nat, ghost passes: nat)
    requires NulFree(prefix) && NulFree(suffix)
    requires messageLen < |message| && NulFreeUpTo(message, messageLen) && message[messageLen] == NUL
    requires |Render(Lines(message[..messageLen]), prefix, suffix)| < buf.Length && buf[0] == NUL
    modifies buf
    ensures p < buf.Length && buf[p] == NUL
    ensures buf[..p] == Render(Lines(message[..messageLen]), prefix, suffix)
    ensures passes == |Lines(message[..messageLen])|
  {
    ghost var whole, total := Render(Lines(message[..messageLen]), prefix, suffix), |Lines(message[..messageLen])|;
    var pm := 0;
    p, passes := 0, 0;
    assert message[0..messageLen] == message[..messageLen];
    while pm < messageLen
      invariant pm <= messageLen && p < buf.Length && buf[p] == NUL
      invariant passes + |Lines(message[pm..messageLen])| == total
      invariant buf[..p] + Render(Lines(message[pm..messageLen]), prefix, suffix) == whole
    {
      p, pm := WriteNextLine(buf, p, message, messageLen, pm, prefix, suffix);
      passes := passes + 1;
    }
  }

  lemma CountedSizeSuffices(long: bool, prefix: string, suffix: string, message: string)
    ensures |Decorated(long, prefix, suffix, message)|
         <= (if long then 1 else CountedLines(message)) * (|prefix| + |suffix|) + |message|
  {
    FormattedLength(prefix, suffix, message);
  }

  /** `log_format_log_line`. The output, NUL-terminated, fits the buffer that the counting pass
      sized or that the caller passed, and does not depend on which of the two it is. */
  method FormatLogLine(format: Format, header: string, tag: string, message: string, messageLen: nat,
                       defaultBuffer: array<char>)
    returns (ret: array<char>, outLength: nat, ghost numLines: nat, ghost passes: nat)
    requires NulFree(header) && NulFree(tag)
    requires messageLen < |message| && NulFreeUpTo(message, messageLen) && message[messageLen] == NUL
    modifies defaultBuffer
    ensures ret == defaultBuffer || fresh(ret)
    ensures outLength < ret.Length && ret[outLength] == NUL
    ensures ret[..outLength] == Formatted(format, header, tag, message[..messageLen])
    ensures passes == numLines
    ensures !format.Long? ==> numLines == CountedLines(message[..messageLen])
  {
    ghost var text := message[..messageLen];
    var prefix, suffix := Prefix(format, header), Suffix(format, tag);
    var count := 1;
    if !format.Long? {
      count := CountLines(message, messageLen);
    }
    var bufferSize := count * (|prefix| + |suffix|) + messageLen + 1;
    CountedSizeSuffices(format.Long?, prefix, suffix, text);
    ret := defaultBuffer;
    if defaultBuffer.Length < bufferSize {
      ret := new char[bufferSize];
    }
    ret[0] := NUL;
    if format.Long? {
      outLength := WriteLine(ret, 0, prefix, message, messageLen, suffix);
      passes := 1;
    } else {
      outLength, passes := WriteLines(ret, message, messageLen, prefix, suffix);
      PassesAgree(text);
    }
    numLines := count;
  }
}
