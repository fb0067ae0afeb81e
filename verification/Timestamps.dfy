/** Queued log entries and the comparison that orders them (logutil.c, logger.h). */
module Timestamps {
  import opened Integers

  /** `struct logger_entry`, without its length. */
  datatype LogEntry = LogEntry(pid: Int32, tid: Int32, sec: Int32, nsec: Int32, payload: string)

  /** The source's comparison: subtract seconds, then nanoseconds, in 32-bit arithmetic. */
  function Cmp(a: LogEntry, b: LogEntry): Int32 {
    var n := Wrap32(a.sec - b.sec);
    if n != 0 then n else Wrap32(a.nsec - b.nsec)
  }

  /** The order the comparison is meant to compute. */
  predicate LexBefore(a: LogEntry, b: LogEntry) {
    a.sec < b.sec || (a.sec == b.sec && a.nsec < b.nsec)
  }

  predicate SameStamp(a: LogEntry, b: LogEntry) {
    a.sec == b.sec && a.nsec == b.nsec
  }

  /** The deciding subtraction stays inside 32 bits. */
  predicate DifferenceFits(a: LogEntry, b: LogEntry) {
    var d := if a.sec != b.sec then a.sec - b.sec else a.nsec - b.nsec;
    -0x8000_0000 <= d < 0x8000_0000
  }

  /** Cmp has the sign of the lexicographic order exactly when its deciding subtraction
      does not wrap. */
  lemma CmpIsLexicographicIffFits(a: LogEntry, b: LogEntry)
    ensures ((Cmp(a, b) < 0 <==> LexBefore(a, b)) && (Cmp(a, b) == 0 <==> SameStamp(a, b)))
       <==> DifferenceFits(a, b)
  {
    Wrap32Sign(a.sec - b.sec);
    Wrap32Sign(a.nsec - b.nsec);
  }

  /** With stamps of both signs the comparison is not an order at all: it has a cycle. */
  lemma CmpCycles()
    ensures exists a: LogEntry, b: LogEntry, c: LogEntry ::
              Cmp(a, b) < 0 && Cmp(b, c) < 0 && Cmp(c, a) < 0
  {
    Wrap32Sign(-0x7fff_ffff);
    Wrap32Sign(0xffff_ffff);
    Wrap32Sign(-0x8000_0000);
    var a, b, c := LogEntry(0, 0, 0, 0, ""), LogEntry(0, 0, 0x7fff_ffff, 0, ""), LogEntry(0, 0, -0x8000_0000, 0, "");
    assert Cmp(a, b) == -0x7fff_ffff && Cmp(b, c) == -1 && Cmp(c, a) == -0x8000_0000;
  }

  /** Entries as the drivers stamp them: seconds since the epoch, nanoseconds. */
  type Entry = e: LogEntry | 0 <= e.sec && 0 <= e.nsec witness LogEntry(0, 0, 0, 0, "")

  /** The stamp as one number. */
  function Key(e: Entry): nat {
    e.sec * 0x8000_0000 + e.nsec
  }

  /** On driver-stamped entries Cmp is the numeric order of the stamps, hence a total preorder. */
  lemma CmpIsKeyOrder(a: Entry, b: Entry)
    ensures Cmp(a, b) < 0 <==> Key(a) < Key(b)
    ensures Cmp(a, b) == 0 <==> Key(a) == Key(b)
    ensures Key(a) == Key(b) <==> SameStamp(a, b)
  {
    CmpIsLexicographicIffFits(a, b);
  }
}
