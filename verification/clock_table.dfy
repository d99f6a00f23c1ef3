/** `get_above_closest_divided`: choosing the clock divisor for a frame duration
    (shutter_value_generator/make_shutter_value_file.py, lines 166-180). The
    table, read from clock_cycle.txt in the source, is a parameter here. */
module ClockTable {
  import opened Results

  /** One row of the clock-cycle table: `Clock` (ms), `Divided`,
      `TimeBin(micros)` and `Range(ms)`. */
  datatype ClockRow = ClockRow(clock: real, divided: int, timeBin: real, rangeMs: real)

  /** Clock periods strictly decrease down the table. */
  predicate StrictlyDescending(table: seq<ClockRow>)
  {
    forall i, j | 0 <= i < j < |table| :: table[j].clock < table[i].clock
  }

  /** The index `np.where(ms <= clock)[0][-1]` selects: the last row whose
      period is at least `ms`, or None when there is no such row. */
  function LastIndexAtLeast(table: seq<ClockRow>, ms: real): (r: Option<nat>)
    ensures r.None? <==> forall i | 0 <= i < |table| :: table[i].clock < ms
    ensures r.Some? ==> && r.value < |table|
                        && ms <= table[r.value].clock
                        && forall j | r.value < j < |table| :: table[j].clock < ms
  {
    if |table| == 0 then None
    else if ms <= table[|table| - 1].clock then Some(|table| - 1)
    else LastIndexAtLeast(table[..|table| - 1], ms)
  }

  /** The divisor for a duration given in seconds (converted to ms first). The
      source's `if` tests a tuple, which is always true, so a duration above
      every period fails on the empty index list instead of returning -1: that
      failure is None here. */
  function GetAboveClosestDivided(deltaTof: real, table: seq<ClockRow>): (r: Option<int>)
    ensures r.None? <==> forall i | 0 <= i < |table| :: table[i].clock < deltaTof * 1000.0
    ensures r.Some? ==> exists i | 0 <= i < |table| ::
              && table[i].divided == r.value
              && deltaTof * 1000.0 <= table[i].clock
              && forall j | i < j < |table| :: table[j].clock < deltaTof * 1000.0
  {
    var ms := deltaTof * 1000.0;
    match LastIndexAtLeast(table, ms)
    case None => None
    case Some(i) => Some(table[i].divided)
  }

  /** On a descending table the selected row has the smallest period that is
      not below the duration. */
  lemma SelectsSmallestSufficientPeriod(table: seq<ClockRow>, ms: real)
    requires StrictlyDescending(table)
    requires LastIndexAtLeast(table, ms).Some?
    ensures var i := LastIndexAtLeast(table, ms).value;
            forall j | 0 <= j < |table| && ms <= table[j].clock ::
              j <= i && table[i].clock <= table[j].clock
  {
  }

  /** `divisor` belongs to the row with the smallest period not below `ms`. */
  predicate IsSmallestSufficientDivisor(table: seq<ClockRow>, ms: real, divisor: int)
  {
    exists j | 0 <= j < |table| ::
      && table[j].divided == divisor
      && ms <= table[j].clock
      && forall m | 0 <= m < |table| && ms <= table[m].clock :: table[j].clock <= table[m].clock
  }

  /** On a descending table the divisor found for a duration (seconds) is the
      one of the smallest period covering it. */
  lemma LookupIsSmallestSufficient(deltaTof: real, table: seq<ClockRow>)
    requires StrictlyDescending(table)
    requires GetAboveClosestDivided(deltaTof, table).Some?
    ensures IsSmallestSufficientDivisor(table, deltaTof * 1000.0, GetAboveClosestDivided(deltaTof, table).value)
  {
    var ms := deltaTof * 1000.0;
    var i := LastIndexAtLeast(table, ms).value;
    SelectsSmallestSufficientPeriod(table, ms);
    assert table[i].divided == GetAboveClosestDivided(deltaTof, table).value;
  }

  /** On a descending table, a row whose period is at least `ms` while the next
      row's is below it (or which is the last row) is the row selected. */
  lemma SelectsBoundaryRow(table: seq<ClockRow>, ms: real, i: nat)
    requires StrictlyDescending(table)
    requires i < |table| && ms <= table[i].clock
    requires i + 1 == |table| || table[i + 1].clock < ms
    ensures LastIndexAtLeast(table, ms) == Some(i)
  {
  }

  /** Clock period of row `i` of the reference table: 100 ms halved `i` times. */
  function ReferenceClock(i: nat): real
  {
    if i == 0 then 100.0 else ReferenceClock(i - 1) / 2.0
  }

  /** Time bin of row `i`: 0.01 us doubled `i` times. */
  function ReferenceTimeBin(i: nat): real
  {
    if i == 0 then 0.01 else ReferenceTimeBin(i - 1) * 2.0
  }

  /** Range of row `i`: 0.118 ms doubled `i` times. */
  function ReferenceRange(i: nat): real
  {
    if i == 0 then 0.118 else ReferenceRange(i - 1) * 2.0
  }

  /** The 20-row table the tests expect: divisor = row index. */
  function ReferenceTable(): seq<ClockRow>
  {
    seq(20, i requires 0 <= i < 20 => ClockRow(ReferenceClock(i), i, ReferenceTimeBin(i), ReferenceRange(i)))
  }

  lemma {:induction false} ReferenceClockPositive(i: nat)
    ensures ReferenceClock(i) > 0.0
  {
    if i > 0 {
      ReferenceClockPositive(i - 1);
    }
  }

  lemma {:induction false} ReferenceClockDecreasing(i: nat, j: nat)
    requires i < j
    ensures ReferenceClock(j) < ReferenceClock(i)
  {
    ReferenceClockPositive(j - 1);
    if i < j - 1 {
      ReferenceClockDecreasing(i, j - 1);
    }
  }

  /** The reference table is strictly descending. */
  lemma ReferenceTableDescending()
    ensures StrictlyDescending(ReferenceTable())
  {
    var t := ReferenceTable();
    forall i, j | 0 <= i < j < |t|
      ensures t[j].clock < t[i].clock
    {
      ReferenceClockDecreasing(i, j);
    }
  }

  /** With the reference table, 2.5 ms, 0.1 ms and 25 ms select divisors 5, 9
      and 2, and 200 ms (above every period) selects nothing. */
  lemma ReferenceExamples()
    ensures GetAboveClosestDivided(0.0025, ReferenceTable()) == Some(5)
    ensures GetAboveClosestDivided(0.0001, ReferenceTable()) == Some(9)
    ensures GetAboveClosestDivided(0.025, ReferenceTable()) == Some(2)
    ensures GetAboveClosestDivided(0.2, ReferenceTable()) == None
  {
    var t := ReferenceTable();
    ReferenceTableDescending();
    assert ReferenceClock(5) == 3.125 && ReferenceClock(6) == 1.5625;
    SelectsBoundaryRow(t, 2.5, 5);
    assert ReferenceClock(9) == 0.1953125 && ReferenceClock(10) == 0.09765625;
    SelectsBoundaryRow(t, 0.1, 9);
    assert ReferenceClock(2) == 25.0 && ReferenceClock(3) == 12.5;
    SelectsBoundaryRow(t, 25.0, 2);
    forall i | 0 <= i < |t|
      ensures t[i].clock < 200.0
    {
      if i > 0 {
        ReferenceClockDecreasing(0, i);
      }
    }
  }
}
