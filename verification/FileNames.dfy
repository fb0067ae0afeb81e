/** The names of the log file and of its rotated predecessors (`rotate_logs` in logutil.c). */
module FileNames {

  function Decimal(n: nat): string {
    if n < 10 then [(n + '0' as int) as char] else Decimal(n / 10) + [(n % 10 + '0' as int) as char]
  }

  lemma {:induction false} DecimalIsInjective(a: nat, b: nat)
    requires Decimal(a) == Decimal(b)
    ensures a == b
  {
    var s, t := Decimal(a), Decimal(b);
    assert s[|s| - 1] == (a % 10 + '0' as int) as char && t[|t| - 1] == (b % 10 + '0' as int) as char;
    assert a % 10 == b % 10;
    DecimalNotEmpty(a / 10);
    DecimalNotEmpty(b / 10);
    if a >= 10 && b >= 10 {
      assert s[..|s| - 1] == Decimal(a / 10) && t[..|t| - 1] == Decimal(b / 10);
      DecimalIsInjective(a / 10, b / 10);
    }
  }

  lemma DecimalNotEmpty(n: nat)
    ensures Decimal(n) != ""
  {
  }

  lemma {:induction false} DecimalGrows(a: nat, b: nat)
    requires a <= b
    ensures |Decimal(a)| <= |Decimal(b)|
  {
    if a >= 10 {
      DecimalGrows(a / 10, b / 10);
    }
  }

  /** A string of digits, read from left to right in base 10. */
  function Value(s: string): int {
    if s == "" then 0 else 10 * Value(s[..|s| - 1]) + (s[|s| - 1] as int - '0' as int)
  }

  lemma ValueAppend(s: string, c: char)
    ensures Value(s + [c]) == 10 * Value(s) + (c as int - '0' as int)
  {
    assert (s + [c])[..|s|] == s;
  }

  /** Decimal digits, no leading zero, with the value n. */
  lemma {:induction false} DecimalIsDecimal(n: nat)
    ensures Value(Decimal(n)) == n && Decimal(n) != "" && (n > 0 ==> Decimal(n)[0] != '0')
    ensures forall i :: 0 <= i < |Decimal(n)| ==> '0' <= Decimal(n)[i] <= '9'
  {
    if n < 10 {
      ValueAppend("", (n + '0' as int) as char);
      assert "" + Decimal(n) == Decimal(n);
    } else {
      DecimalIsDecimal(n / 10);
      ValueAppend(Decimal(n / 10), (n % 10 + '0' as int) as char);
    }
  }

  /** What snprintf keeps in the 255 bytes it is given. */
  function Clip(s: string): string {
    if |s| > 254 then s[..254] else s
  }

  /** Number 0 is the file being written. */
  function FileName(base: string, i: nat): string {
    Clip(if i == 0 then base else base + "." + Decimal(i))
  }

  /** A name longer than that is cut; if that leaves no room for a number, all names are the same. */
  lemma LongNamesAreCut(base: string, i: nat)
    ensures var full := if i == 0 then base else base + "." + Decimal(i);
            FileName(base, i) == full[..if |full| < 254 then |full| else 254]
    ensures |base| >= 254 ==> FileName(base, i) == base[..254]
  {
    if |base| >= 254 && i > 0 {
      assert (base + "." + Decimal(i))[..254] == base[..254];
    }
  }

  /** The longest name used fits. */
  predicate Fits(base: string, max: nat) {
    |base| + (if max == 0 then 0 else 1 + |Decimal(max)|) <= 254
  }

  /** Then all names are whole and different. */
  lemma NamesAreDistinct(base: string, max: nat, i: nat, j: nat)
    requires Fits(base, max) && i <= max && j <= max
    ensures FileName(base, 0) == base
    ensures FileName(base, i) == FileName(base, j) <==> i == j
  {
    DecimalGrows(i, max);
    DecimalGrows(j, max);
    DecimalNotEmpty(i);
    DecimalNotEmpty(j);
    if i > 0 && j > 0 && FileName(base, i) == FileName(base, j) {
      assert FileName(base, i)[|base| + 1..] == Decimal(i);
      assert FileName(base, j)[|base| + 1..] == Decimal(j);
      DecimalIsInjective(i, j);
    }
  }
}
