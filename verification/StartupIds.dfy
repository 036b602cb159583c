/**
 The startup ids the session manager makes up: their text, what can be read
 back from it, and when two of them are the same.
 */
module StartupIds {

  // ---------- Numbers as text ----------

  function Digit(d: nat): (c: char)
    requires d < 16
    ensures d < 10 ==> c == '0' + d as char
  {
    if d < 10 then '0' + d as char else 'a' + (d - 10) as char
  }

  /** printf's `%.<precision>` for an unsigned number in the given base: at least `precision` digits. */
  function Digits(n: nat, base: nat, precision: nat): (s: string)
    requires 2 <= base <= 16
    decreases n, precision
  {
    if n < base && precision <= 1 then [Digit(n)]
    else Digits(n / base, base, if precision > 0 then precision - 1 else 0) + [Digit(n % base)]
  }

  function Decimal(n: nat, precision: nat): (s: string) {
    Digits(n, 10, precision)
  }

  function ValueOf(s: string): (n: int) {
    if s == "" then 0 else 10 * ValueOf(s[..|s| - 1]) + (s[|s| - 1] as int - '0' as int)
  }

  function Power10(k: nat): (p: nat)
    ensures p > 0
  {
    if k == 0 then 1 else 10 * Power10(k - 1)
  }

  lemma {:induction false} DecimalValue(n: nat, precision: nat)
    ensures ValueOf(Decimal(n, precision)) == n
    decreases n, precision
  {
    var s := Decimal(n, precision);
    if !(n < 10 && precision <= 1) {
      var fewer := if precision > 0 then precision - 1 else 0;
      DecimalValue(n / 10, fewer);
      assert s[..|s| - 1] == Decimal(n / 10, fewer);
    }
  }

  /** A number that fits in the precision takes exactly that many digits. */
  lemma {:induction false} DecimalWidth(n: nat, precision: nat)
    requires precision > 0 && n < Power10(precision)
    ensures |Decimal(n, precision)| == precision
    decreases precision
  {
    if precision > 1 {
      DecimalWidth(n / 10, precision - 1);
    }
  }

  // ---------- The id ----------

  /** What a process fixes at its first call. */
  datatype Process = Process(rand1: nat, rand2: nat, pid: nat)

  /** What one call adds: the time of day and the sequence number. */
  datatype Stamp = Stamp(sec: nat, usec: nat, sequence: nat)

  const SEQUENCES := 10000

  predicate IsProcess(p: Process) {
    p.pid < Power10(10)
  }

  /** Seconds of at most ten digits, as they are until the year 2286. */
  predicate IsStamp(t: Stamp) {
    t.sec < Power10(10) && t.usec < 1000000 && t.sequence < SEQUENCES
  }

  /** "10" and two random numbers in hexadecimal. */
  function Address(p: Process): (s: string) {
    "10" + Digits(p.rand1, 16, 4) + Digits(p.rand2, 16, 4)
  }

  function StartupId(p: Process, t: Stamp): (s: string) {
    Address(p) + (Decimal(t.sec, 10) + (Decimal(t.usec, 3) + (Decimal(p.pid, 10) + Decimal(t.sequence, 4))))
  }

  /** What can be read off the text: the microseconds are whatever stands between the fixed fields. */
  function Read(p: Process, s: string): (t: Stamp)
    requires |s| >= |Address(p)| + 24
  {
    var rest := s[|Address(p)|..];
    var sec, usec, sequence := ValueOf(rest[..10]), ValueOf(rest[10..|rest| - 14]), ValueOf(rest[|rest| - 4..]);
    Stamp(if sec >= 0 then sec else 0, if usec >= 0 then usec else 0, if sequence >= 0 then sequence else 0)
  }

  lemma Cuts(a: string, b: string, c: string, d: string, e: string)
    requires |b| == 10 && |d| == 10 && |e| == 4
    ensures var s := a + (b + (c + (d + e)));
      && |s| >= |a| + 24
      && var rest := s[|a|..];
         rest[..10] == b && rest[10..|rest| - 14] == c && rest[|rest| - 4..] == e && s[|s| - 14..|s| - 4] == d
  {
    var s := a + (b + (c + (d + e)));
    assert s[|a|..] == b + (c + (d + e));
  }

  // ---------- The random numbers ----------

  function HexDigit(c: char): (d: int) {
    if '0' <= c <= '9' then c as int - '0' as int else c as int - 'a' as int + 10
  }

  function HexValue(s: string): (n: int) {
    if s == "" then 0 else 16 * HexValue(s[..|s| - 1]) + HexDigit(s[|s| - 1])
  }

  lemma {:induction false} HexReadsBack(n: nat, precision: nat)
    ensures HexValue(Digits(n, 16, precision)) == n && |Digits(n, 16, precision)| >= precision
    decreases n, precision
  {
    var s := Digits(n, 16, precision);
    assert forall d: nat :: d < 16 ==> HexDigit(Digit(d)) == d;
    if !(n < 16 && precision <= 1) {
      var fewer := if precision > 0 then precision - 1 else 0;
      HexReadsBack(n / 16, fewer);
      assert s[..|s| - 1] == Digits(n / 16, 16, fewer);
    }
  }

  /** The id begins with "10" and both random numbers in hexadecimal, at least four digits each. */
  lemma AddressReadsBack(p: Process) returns (k: nat)
    ensures var s := Address(p);
      && 6 <= k <= |s| - 4 && s[..2] == "10"
      && HexValue(s[2..k]) == p.rand1 && HexValue(s[k..]) == p.rand2
  {
    HexReadsBack(p.rand1, 4);
    HexReadsBack(p.rand2, 4);
    k := 2 + |Digits(p.rand1, 16, 4)|;
    var s := Address(p);
    assert s[2..k] == Digits(p.rand1, 16, 4) && s[k..] == Digits(p.rand2, 16, 4);
  }

  /** The id determines its time and sequence number, although the microseconds vary in width, and the process id. */
  lemma ReadsBack(p: Process, t: Stamp)
    requires IsProcess(p) && IsStamp(t)
    ensures var s := StartupId(p, t);
      && |s| >= |Address(p)| + 24 && Read(p, s) == t
      && ValueOf(s[|s| - 14..|s| - 4]) == p.pid
  {
    DecimalValue(p.pid, 10);
    PowersOfTen();
    DecimalWidth(t.sec, 10);
    DecimalWidth(p.pid, 10);
    DecimalWidth(t.sequence, 4);
    Cuts(Address(p), Decimal(t.sec, 10), Decimal(t.usec, 3), Decimal(p.pid, 10), Decimal(t.sequence, 4));
    DecimalValue(t.sec, 10);
    DecimalValue(t.usec, 3);
    DecimalValue(t.sequence, 4);
  }

  lemma PowersOfTen()
    ensures Power10(4) == SEQUENCES
  {
    assert Power10(2) == 100;
  }

  // ---------- Many calls ----------

  /** The `k`th call of a process, counted from 0, at a given time. */
  function Call(k: nat, sec: nat, usec: nat): (t: Stamp) {
    Stamp(sec, usec, k % SEQUENCES)
  }

  /** Two calls of one process give the same id exactly when they are made in the same microsecond, a
      multiple of 10000 calls apart. */
  lemma CollideIff(p: Process, k: nat, sec: nat, usec: nat, k': nat, sec': nat, usec': nat)
    requires IsProcess(p) && IsStamp(Call(k, sec, usec)) && IsStamp(Call(k', sec', usec'))
    ensures StartupId(p, Call(k, sec, usec)) == StartupId(p, Call(k', sec', usec'))
       <==> sec == sec' && usec == usec' && (k - k') % SEQUENCES == 0
  {
    ReadsBack(p, Call(k, sec, usec));
    ReadsBack(p, Call(k', sec', usec'));
    SameSequence(k, k');
  }

  lemma SameSequence(k: nat, k': nat)
    ensures k % SEQUENCES == k' % SEQUENCES <==> (k - k') % SEQUENCES == 0
  {
    assert k == SEQUENCES * (k / SEQUENCES) + k % SEQUENCES;
    assert k' == SEQUENCES * (k' / SEQUENCES) + k' % SEQUENCES;
    var q := k / SEQUENCES - k' / SEQUENCES;
    var d := k % SEQUENCES - k' % SEQUENCES;
    assert k - k' == SEQUENCES * q + d;
    assert (k - k') % SEQUENCES == d % SEQUENCES;
  }

  /** The static variables of `csm_util_generate_startup_id`. */
  class Generator {
    var sequence: int
    var process: Process
    ghost var calls: nat

    ghost predicate Valid()
      reads this
    {
      sequence == if calls == 0 then -1 else (calls - 1) % SEQUENCES
    }

    constructor ()
      ensures Valid() && calls == 0 && process.rand1 == 0
    {
      sequence, process, calls := -1, Process(0, 0, 0), 0;
    }

    /** `drawn` is what the random numbers and the process id would be if they were drawn now. */
    method Generate(drawn: Process, sec: nat, usec: nat) returns (id: string)
      requires Valid()
      modifies this
      ensures Valid() && calls == old(calls) + 1
      ensures process == if old(process.rand1) == 0 then drawn else old(process)
      ensures id == StartupId(process, Call(old(calls), sec, usec))
    {
      if process.rand1 == 0 {
        process := drawn;
      }
      sequence := (sequence + 1) % SEQUENCES;
      NextSequence(calls);
      calls := calls + 1;
      id := Address(process)
            + (Decimal(sec, 10) + (Decimal(usec, 3) + (Decimal(process.pid, 10) + Decimal(sequence, 4))));
    }
  }

  lemma NextSequence(calls: nat)
    ensures calls > 0 ==> ((calls - 1) % SEQUENCES + 1) % SEQUENCES == calls % SEQUENCES
  {
    if calls > 0 {
      var n := calls - 1;
      assert n == SEQUENCES * (n / SEQUENCES) + n % SEQUENCES;
      assert calls == SEQUENCES * (n / SEQUENCES) + (n % SEQUENCES + 1);
    }
  }
}
