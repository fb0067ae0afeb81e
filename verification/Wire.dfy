/** The wire format: the writer's three-part payload (log.c) and the reader's parser (logprint.c). */
module Wire {
  import D = DlogInit
  import F = Formatter
  import opened Integers
  import opened Options

  const LOG_ID_MAX := 4

  const SIZE_MAX := 0x1_0000_0000_0000_0000

  /** The first byte of a priority in memory, little-endian. */
  function PrioByte(prio: Uint32): char {
    (prio % 256) as char
  }

  /** That byte read back through a signed char. */
  function SignedChar(c: char): int {
    if c as int < 128 then c as int else c as int - 256
  }

  /** The priorities that one signed byte can hold, negative ones converted. */
  predicate FitsByte(prio: Uint32) {
    prio < 128 || prio >= 0xffff_ff80
  }

  function Payload(prio: Uint32, tag: string, msg: string): string {
    [PrioByte(prio)] + tag + [F.NUL] + msg + [F.NUL]
  }

  /** Where `__write_to_log_kernel` sends what. */
  datatype Sent = Sent(fd: int, payload: string)

  /** `__write_to_log_kernel`: the value returned if nothing is sent, else the call to writev. */
  method WriteToLogKernel(logFds: array<int>, debugLevel: Int32, logId: nat, prio: Uint32, tag: Option<string>, msg: string)
    returns (ret: Option<int>, sent: Option<Sent>)
    requires logFds.Length == LOG_ID_MAX
    ensures ret.None? <==> sent.Some?
    ensures logId >= 3 && prio < Unsigned32(debugLevel) ==> ret == Some(0)
    ensures logId >= 4 && prio >= Unsigned32(debugLevel) ==> ret == Some(-1)
    ensures logId < 3 || (logId == 3 && prio >= Unsigned32(debugLevel)) ==>
              sent == Some(Sent(logFds[logId], Payload(prio, if tag.Some? then tag.value else "", msg)))
  {
    if logId >= D.APPS && prio < Unsigned32(debugLevel) {
      return Some(0), None;
    }
    var logFd;
    if logId < LOG_ID_MAX {
      logFd := logFds[logId];
    } else {
      return Some(-1), None;
    }
    var text := if tag.None? then "" else tag.value;
    var vec := new string[3];
    vec[0] := [PrioByte(prio)];
    vec[1] := text + [F.NUL];
    vec[2] := msg + [F.NUL];
    ret, sent := None, Some(Sent(logFd, vec[0] + vec[1] + vec[2]));
    assert vec[0] + vec[1] + vec[2] == Payload(prio, text, msg);
  }

  /** What `log_entry` takes from the payload; `message` is the memory from the message pointer to
      the NUL that the reader puts after the payload. */
  datatype Record = Record(priority: Uint32, tag: string, message: string, messageLen: nat)

  function StrLen(s: string): (n: nat)
    ensures n <= |s| && (forall i :: 0 <= i < n ==> s[i] != F.NUL) && (n < |s| ==> s[n] == F.NUL)
  {
    if s == "" || s[0] == F.NUL then 0 else 1 + StrLen(s[1..])
  }

  function Parse(payload: string): Record
    requires payload != ""
  {
    var buf := payload + [F.NUL];
    var tagLen := StrLen(buf[1..]);
    Record(Unsigned32(SignedChar(buf[0])), buf[1..1 + tagLen],
           if 2 + tagLen <= |buf| then buf[2 + tagLen..] else "",
           (|payload| - tagLen - 3) % SIZE_MAX)
  }

  /** The message pointer and length describe NUL-terminated memory inside the entry. */
  predicate WellFormed(payload: string) {
    payload != "" &&
    var r := Parse(payload);
    r.messageLen < |r.message| && F.NulFreeUpTo(r.message, r.messageLen) && r.message[r.messageLen] == F.NUL
  }

  lemma TagIsNulFree(payload: string)
    requires payload != ""
    ensures F.NulFree(Parse(payload).tag)
  {
    var buf := payload + [F.NUL];
    var n := StrLen(buf[1..]);
    assert buf[1..1 + n] == buf[1..][..n];
  }

  /** `log_process_log_buffer`, with the NUL that `read_log_lines` adds. */
  method ProcessLogBuffer(payload: string) returns (entry: Record)
    requires payload != ""
    ensures entry == Parse(payload)
  {
    var buf := payload + [F.NUL];
    var tagLen := 0;
    while buf[1 + tagLen] != F.NUL
      invariant 1 + tagLen < |buf|
      invariant forall i :: 0 <= i < tagLen ==> buf[1..][i] != F.NUL
      decreases |buf| - tagLen
    {
      tagLen := tagLen + 1;
    }
    assert buf[1..][tagLen] == buf[1 + tagLen];
    assert StrLen(buf[1..]) == tagLen;
    entry := Record(Unsigned32(SignedChar(buf[0])), buf[1..1 + tagLen], buf[2 + tagLen..], (|payload| - tagLen - 3) % SIZE_MAX);
  }

  /** The parser recovers the tag, the message and its length from every payload the writer builds,
      and the priority exactly when it is a signed char. */
  lemma WriteParseRoundTrip(prio: Uint32, tag: string, msg: string)
    requires F.NulFree(tag) && F.NulFree(msg) && |tag| + |msg| + 3 < SIZE_MAX
    ensures var r := Parse(Payload(prio, tag, msg));
            && WellFormed(Payload(prio, tag, msg))
            && r.tag == tag && r.messageLen == |msg| < |r.message|
            && r.message[..|msg|] == msg && r.message[|msg|] == F.NUL
            && (r.priority == prio <==> FitsByte(prio))
  {
    var payload := Payload(prio, tag, msg);
    var n := PayloadLayout(prio, tag, msg);
    PrioByteRoundTrip(prio);
    assert (|payload| - n - 3) % SIZE_MAX == |msg|;
  }

  /** The payload byte by byte: the low byte of the priority, the tag, a NUL, the message, a NUL. */
  lemma PayloadBytes(prio: Uint32, tag: string, msg: string)
    ensures var payload := Payload(prio, tag, msg);
            && |payload| == |tag| + |msg| + 3 && payload[0] as int == prio % 256
            && payload[1..1 + |tag|] == tag && payload[1 + |tag|] == '\0'
            && payload[2 + |tag|..2 + |tag| + |msg|] == msg && payload[2 + |tag| + |msg|] == '\0'
  {
    var payload := Payload(prio, tag, msg);
    assert payload == [PrioByte(prio)] + tag + ['\0'] + msg + ['\0'];
  }

  /** The fields of any payload: the first byte as a signed char, the text up to the next NUL, and
      behind it the message; its length wraps to almost 2^64 where the two NULs are missing, and such
      a payload is not well-formed. */
  lemma ParsedFields(payload: string, n: nat)
    requires payload != "" && payload[0] < 256 as char && |payload| < 0x1_0000_0000_0000_0000
    requires 1 + n <= |payload| && (forall i :: 1 <= i < 1 + n ==> payload[i] != '\0')
    requires 1 + n < |payload| ==> payload[1 + n] == '\0'
    ensures var r, b := Parse(payload), payload[0] as int;
            && r.priority == (if b < 128 then b else b + 0xffff_ff00) && r.tag == payload[1..1 + n]
            && (n + 3 <= |payload| ==>
                 r.messageLen == |payload| - n - 3 && r.message == payload[2 + n..] + ['\0'])
            && (n + 3 > |payload| ==> r.messageLen >= 0xffff_ffff_ffff_fffe)
    ensures n + 3 > |payload| ==> !WellFormed(payload)
  {
    TagIs(payload, n);
    Unsigned32Of(SignedChar(payload[0]));
    LengthIs(|payload| - n - 3);
  }

  lemma TagIs(payload: string, n: nat)
    requires 1 + n <= |payload| && (forall i :: 1 <= i < 1 + n ==> payload[i] != '\0')
    requires 1 + n < |payload| ==> payload[1 + n] == '\0'
    ensures var buf := payload + [F.NUL];
            && StrLen(buf[1..]) == n && buf[1..1 + n] == payload[1..1 + n]
            && (n + 2 <= |payload| ==> buf[2 + n..] == payload[2 + n..] + ['\0'])
  {
    var rest := (payload + [F.NUL])[1..];
    assert forall i :: 0 <= i < n ==> rest[i] == payload[1 + i];
    assert rest[n] == F.NUL;
  }

  lemma LengthIs(k: int)
    requires -2 <= k < SIZE_MAX
    ensures k % SIZE_MAX == if k < 0 then k + SIZE_MAX else k
  {
  }

  lemma PrioByteRoundTrip(prio: Uint32)
    ensures Unsigned32(SignedChar(PrioByte(prio))) == prio <==> FitsByte(prio)
  {
    var c := PrioByte(prio);
    assert c as int == prio % 256;
    Unsigned32Of(SignedChar(c));
    if prio >= 0xffff_ff80 {
      assert prio == 256 * 0xff_ffff + (prio - 0xffff_ff00);
      assert c as int == prio - 0xffff_ff00;
    }
  }

  /** The writer's payload, with the reader's NUL, has the tag from 1 and the message behind it. */
  lemma PayloadLayout(prio: Uint32, tag: string, msg: string) returns (n: nat)
    requires F.NulFree(tag)
    ensures var buf := Payload(prio, tag, msg) + [F.NUL];
            && n == |tag| == StrLen(buf[1..]) && buf[0] == PrioByte(prio)
            && buf[1..1 + n] == tag && buf[2 + n..] == msg + [F.NUL, F.NUL]
  {
    n := |tag|;
    Parts(PrioByte(prio), tag, msg + [F.NUL, F.NUL]);
    TagEnds(tag, msg + [F.NUL, F.NUL]);
    assert Payload(prio, tag, msg) + [F.NUL] == [PrioByte(prio)] + tag + [F.NUL] + (msg + [F.NUL, F.NUL]);
  }

  lemma Parts(c: char, tag: string, rest: string)
    ensures var buf := [c] + tag + [F.NUL] + rest;
            buf[0] == c && buf[1..] == tag + [F.NUL] + rest && buf[1..1 + |tag|] == tag && buf[2 + |tag|..] == rest
  {
  }

  lemma TagEnds(tag: string, rest: string)
    requires F.NulFree(tag)
    ensures StrLen(tag + [F.NUL] + rest) == |tag|
  {
    var s, n := tag + [F.NUL] + rest, |tag|;
    assert s[n] == F.NUL && forall i :: 0 <= i < n ==> s[i] == tag[i];
  }

  /** End to end: what the raw format prints of what the writer sent is the message, closed with
      a newline when it is not empty and does not end in one. */
  lemma RawEndToEnd(prio: Uint32, tag: string, msg: string, header: string)
    requires F.NulFree(tag) && F.NulFree(msg) && |tag| + |msg| + 3 < SIZE_MAX
    ensures var r := Parse(Payload(prio, tag, msg));
            r.messageLen <= |r.message| &&
            F.Formatted(F.Raw, header, r.tag, r.message[..r.messageLen]) == msg + if F.EndsOpen(msg) then [F.NL] else ""
  {
    WriteParseRoundTrip(prio, tag, msg);
    F.RawRendering(msg);
  }
}
