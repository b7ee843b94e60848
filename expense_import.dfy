/** The import script (management/commands/import_projects.py): sum
    (F/C)*E over worksheet rows 10..113, round the total to cents, then read
    the project's fixed cells and derive the accomplishment percentages.
    The worksheet is a map from cell address to the value of every non-empty
    cell; decimals are exact rationals. */
module ExpenseImport {
  import opened Optional
  import opened SafeDecimal
  import opened DecimalContext
  import opened Digits

  /** A cell address such as F10: column letters and row number. */
  datatype Address = Address(column: string, row: int)

  /** The active worksheet: the value of each non-empty cell. */
  type Sheet = map<Address, CellValue>

  /** `sheet[f"{column}{row}"].value`: None for an empty cell. */
  function Cell(sheet: Sheet, column: string, row: int): Option<CellValue>
  {
    if Address(column, row) in sheet then Some(sheet[Address(column, row)]) else None
  }

  /** The coerced value of every non-empty cell: `safe_decimal` of its
      `.value`. Coercion depends on the cell alone, so the scan can be stated
      over this view of the worksheet. */
  type Decimals = map<Address, real>

  function DecimalView(sheet: Sheet): (d: Decimals)
    ensures d.Keys == sheet.Keys
  {
    map a | a in sheet :: ToDecimal(Some(sheet[a]))
  }

  /** A cell of the decimal view: None where the worksheet cell is empty. */
  function Lookup(d: Decimals, column: string, row: int): Option<real>
  {
    if Address(column, row) in d then Some(d[Address(column, row)]) else None
  }

  /** The scanned window, `range(10, 114)`. */
  const FirstRow: int := 10
  const LastRow: int := 113
  const RowCount: nat := 104

  /** Which branch one pass of the loop body took. */
  datatype RowOutcome =
    | Added(term: real)   // (F/C)*E was added to the running total
    | MissingValues       // one of F, C, E was empty: warning, skipped
    | DivisionByZero      // C coerced to zero: warning, skipped
    | RowError            // the arithmetic raised (Overflow): caught, reported, skipped

  /** The loop body for one row whose F, C and E cells coerce to f, c and e
      (None for an empty cell), given the running total before it. */
  function Evaluate(f: Option<real>, c: Option<real>, e: Option<real>, total: real): (o: RowOutcome)
    ensures o == MissingValues <==> f.None? || c.None? || e.None?
  {
    if f.None? || c.None? || e.None? then MissingValues
    else Accumulated(f.value, c.value, e.value, total)
  }

  /** The loop body once all three cells are present: skip a zero base,
      otherwise add `(f / c) * e`, unless a step overflows. */
  function Accumulated(f: real, c: real, e: real, total: real): (o: RowOutcome)
    ensures o != MissingValues
    ensures o == DivisionByZero <==> c == 0.0
    ensures o.Added? ==> o.term * c == f * e
    ensures o.Added? ==> !Overflows(o.term) && !Overflows(total + o.term)
    ensures o.Added? ==> c != 0.0 && !Overflows(f / c)
  {
    if c == 0.0 then DivisionByZero
    else
      RatioTimesBase(f, c, e);
      if Overflows(f / c) || Overflows(f / c * e) || Overflows(total + f / c * e) then RowError
      else Added(f / c * e)
  }

  /** Conversely, a non-zero base whose quotient, term and new total stay
      below the overflow bound adds (f / c) * e. */
  lemma AccumulatedAdds(f: real, c: real, e: real, total: real)
    requires c != 0.0 && !Overflows(f / c) && !Overflows(f / c * e) && !Overflows(total + f / c * e)
    ensures Accumulated(f, c, e, total) == Added(f / c * e)
  {
  }

  lemma RatioTimesBase(f: real, c: real, e: real)
    requires c != 0.0
    ensures (f / c * e) * c == f * e
  {
    var q := f / c;
    assert q * c == f;
    assert (q * e) * c == (q * c) * e;
  }

  /** The loop body for `row`. */
  function EvaluateRow(d: Decimals, row: int, total: real): RowOutcome
  {
    Evaluate(Lookup(d, "F", row), Lookup(d, "C", row), Lookup(d, "E", row), total)
  }

  /** The running total after a row with the given outcome. */
  function After(total: real, o: RowOutcome): real
  {
    if o.Added? then total + o.term else total
  }

  /** The running total after the first n rows of the window. */
  function TotalAfter(d: Decimals, n: nat): real
    requires n <= RowCount
  {
    if n == 0 then 0.0
    else
      var t := TotalAfter(d, n - 1);
      After(t, EvaluateRow(d, FirstRow + n - 1, t))
  }

  /** The running total never reaches the overflow bound: a row that would
      take it there raises and is skipped. */
  lemma {:induction false} TotalNeverOverflows(d: Decimals, n: nat)
    requires n <= RowCount
    ensures !Overflows(TotalAfter(d, n))
  {
    if n == 0 {
      BelowPow10(Abs(0.0), Emax + 1, 0);
    } else {
      TotalNeverOverflows(d, n - 1);
      var t := TotalAfter(d, n - 1);
      var o := EvaluateRow(d, FirstRow + n - 1, t);
      assert TotalAfter(d, n) == After(t, o);
    }
  }

  /** The outcomes of the first n rows of the window, in scan order. */
  function Outcomes(d: Decimals, n: nat): seq<RowOutcome>
    requires n <= RowCount
  {
    if n == 0 then []
    else Outcomes(d, n - 1) + [EvaluateRow(d, FirstRow + n - 1, TotalAfter(d, n - 1))]
  }

  /** One more row: its outcome at the total so far, and the total after it. */
  lemma ScanStep(d: Decimals, n: nat)
    requires n < RowCount
    ensures var t := TotalAfter(d, n);
            var o := EvaluateRow(d, FirstRow + n, t);
            TotalAfter(d, n + 1) == After(t, o) && Outcomes(d, n + 1) == Outcomes(d, n) + [o]
  {
  }

  /** The sum of the terms that were added. */
  function SumAdded(os: seq<RowOutcome>): real
  {
    if os == [] then 0.0 else After(SumAdded(os[..|os| - 1]), os[|os| - 1])
  }

  /** Lines 27-47: one pass of the loop body, reading the three cells,
      coercing them and accumulating into the running total. */
  method ScanRow(sheet: Sheet, row: int, total: real) returns (outcome: RowOutcome, newTotal: real)
    ensures outcome == EvaluateRow(DecimalView(sheet), row, total)
    ensures newTotal == After(total, outcome)
  {
    newTotal := total;
    var f, c, e := Cell(sheet, "F", row), Cell(sheet, "C", row), Cell(sheet, "E", row);
    if f.Some? && c.Some? && e.Some? {
      var fd, cd, ed := ToDecimal(f), ToDecimal(c), ToDecimal(e);
      outcome, newTotal := AddRow(fd, cd, ed, total);
    } else {
      outcome := MissingValues;
    }
  }

  /** Lines 37-42: the arithmetic of one row whose cells are all present. */
  method AddRow(fd: real, cd: real, ed: real, total: real) returns (outcome: RowOutcome, newTotal: real)
    ensures outcome == Accumulated(fd, cd, ed, total)
    ensures newTotal == After(total, outcome)
  {
    newTotal := total;
    if cd != 0.0 {
      var quotient := fd / cd;
      if Overflows(quotient) {
        outcome := RowError;
      } else {
        var result := quotient * ed;
        assert result == fd / cd * ed && total + result == total + fd / cd * ed;
        if Overflows(result) || Overflows(total + result) {
          outcome := RowError;
        } else {
          newTotal := total + result;
          outcome := Added(result);
        }
      }
    } else {
      outcome := DivisionByZero;
    }
  }

  /** Lines 25-47: the scan, with the outcome of each row it visits. */
  method ScanExpenses(sheet: Sheet) returns (total: real, outcomes: seq<RowOutcome>)
    ensures total == TotalAfter(DecimalView(sheet), RowCount)
    ensures outcomes == Outcomes(DecimalView(sheet), RowCount)
  {
    ghost var d := DecimalView(sheet);
    total := 0.0;
    outcomes := [];
    for i := 0 to RowCount
      invariant total == TotalAfter(d, i)
      invariant outcomes == Outcomes(d, i)
    {
      ScanStep(d, i);
      var outcome;
      outcome, total := ScanRow(sheet, FirstRow + i, total);
      outcomes := outcomes + [outcome];
    }
  }

  /** The scan visits rows 10 through 113, each once, in increasing order:
      the i-th outcome is row 10 + i evaluated at the total before it. */
  lemma {:induction false} ScanVisitsEachRowOnce(d: Decimals, n: nat)
    requires n <= RowCount
    ensures |Outcomes(d, n)| == n
    ensures forall i :: 0 <= i < n ==>
              Outcomes(d, n)[i] == EvaluateRow(d, FirstRow + i, TotalAfter(d, i))
  {
    if n > 0 {
      ScanVisitsEachRowOnce(d, n - 1);
    }
  }

  /** The total is the sum of the added terms read off the outcome log;
      skipped and failed rows add nothing. This folds the log the way
      TotalAfter folds the rows, so it is a bookkeeping fact; the statement
      of the total against an independent sum is TotalIsPlainSum. */
  lemma {:induction false} TotalIsSumOfAddedTerms(d: Decimals, n: nat)
    requires n <= RowCount
    ensures TotalAfter(d, n) == SumAdded(Outcomes(d, n))
  {
    if n > 0 {
      var os := Outcomes(d, n);
      assert os[..|os| - 1] == Outcomes(d, n - 1);
      TotalIsSumOfAddedTerms(d, n - 1);
    }
  }

  /** A row changes the running total only when F, C and E are all present
      and C is not zero, and then by a term t with t * C == F * E. */
  lemma RowContribution(d: Decimals, n: nat)
    requires n < RowCount
    ensures var row, before, after := FirstRow + n, TotalAfter(d, n), TotalAfter(d, n + 1);
            after == before
            || (Lookup(d, "F", row).Some? && Lookup(d, "C", row).Some? && Lookup(d, "E", row).Some?
                && Lookup(d, "C", row).value != 0.0
                && (after - before) * Lookup(d, "C", row).value == Lookup(d, "F", row).value * Lookup(d, "E", row).value)
  {
    var row, t := FirstRow + n, TotalAfter(d, n);
    OutcomeContribution(Lookup(d, "F", row), Lookup(d, "C", row), Lookup(d, "E", row), t);
  }

  lemma OutcomeContribution(f: Option<real>, c: Option<real>, e: Option<real>, t: real)
    ensures var after := After(t, Evaluate(f, c, e, t));
            after == t
            || (f.Some? && c.Some? && e.Some? && c.value != 0.0 && (after - t) * c.value == f.value * e.value)
  {
  }

  /** F, C and E are all present and C is not zero: a row the loop adds up. */
  predicate Complete(f: Option<real>, c: Option<real>, e: Option<real>)
  {
    f.Some? && c.Some? && e.Some? && c.value != 0.0
  }

  /** What a row is meant to contribute: (F/C)*E when complete, 0 otherwise. */
  function Term(f: Option<real>, c: Option<real>, e: Option<real>): real
  {
    if Complete(f, c, e) then f.value / c.value * e.value else 0.0
  }

  /** A row computes without overflow on the running total t: when complete,
      its quotient, its term and t plus the term stay below the bound. */
  predicate Fits(f: Option<real>, c: Option<real>, e: Option<real>, t: real)
  {
    Complete(f, c, e) ==>
      !Overflows(f.value / c.value) && !Overflows(Term(f, c, e)) && !Overflows(t + Term(f, c, e))
  }

  /** A row that fits does not raise and adds exactly its term. */
  lemma EvaluateFits(f: Option<real>, c: Option<real>, e: Option<real>, t: real)
    requires Fits(f, c, e, t)
    ensures Evaluate(f, c, e, t) != RowError
    ensures After(t, Evaluate(f, c, e, t)) == t + Term(f, c, e)
  {
    if Complete(f, c, e) {
      var fv, cv, ev := f.value, c.value, e.value;
      assert Term(f, c, e) == fv / cv * ev;
      AccumulatedAdds(fv, cv, ev, t);
      assert Evaluate(f, c, e, t) == Accumulated(fv, cv, ev, t);
    }
  }

  function RowTerm(d: Decimals, row: int): real
  {
    Term(Lookup(d, "F", row), Lookup(d, "C", row), Lookup(d, "E", row))
  }

  /** Conversely, a complete row whose quotient, term and new total all stay
      below the overflow bound adds (F/C)*E. */
  lemma CompleteRowIsAdded(d: Decimals, n: nat)
    requires n < RowCount
    requires var row := FirstRow + n;
             Complete(Lookup(d, "F", row), Lookup(d, "C", row), Lookup(d, "E", row))
             && Fits(Lookup(d, "F", row), Lookup(d, "C", row), Lookup(d, "E", row), TotalAfter(d, n))
    ensures TotalAfter(d, n + 1) == TotalAfter(d, n) + RowTerm(d, FirstRow + n)
  {
    var row, t := FirstRow + n, TotalAfter(d, n);
    EvaluateFits(Lookup(d, "F", row), Lookup(d, "C", row), Lookup(d, "E", row), t);
    assert TotalAfter(d, n + 1) == After(t, EvaluateRow(d, row, t));
  }

  /** The plain sum of the row terms of the first n rows of the window,
      with no overflow checks: the figure the script sets out to compute. */
  function PlainSum(d: Decimals, n: nat): real
    requires n <= RowCount
  {
    if n == 0 then 0.0 else PlainSum(d, n - 1) + RowTerm(d, FirstRow + n - 1)
  }

  /** Row i of the window fits on the plain sum of the rows before it. */
  predicate RowFits(d: Decimals, i: nat)
    requires i < RowCount
  {
    var row := FirstRow + i;
    Fits(Lookup(d, "F", row), Lookup(d, "C", row), Lookup(d, "E", row), PlainSum(d, i))
  }

  /** When no row overflows, no row fails and the total is exactly the sum
      of (F/C)*E over the complete rows. */
  lemma {:induction false} TotalIsPlainSum(d: Decimals, n: nat)
    requires n <= RowCount
    requires forall i :: 0 <= i < n ==> RowFits(d, i)
    ensures TotalAfter(d, n) == PlainSum(d, n)
    ensures RowError !in Outcomes(d, n)
  {
    if n > 0 {
      TotalIsPlainSum(d, n - 1);
      assert RowFits(d, n - 1);
      var row, t := FirstRow + n - 1, TotalAfter(d, n - 1);
      EvaluateFits(Lookup(d, "F", row), Lookup(d, "C", row), Lookup(d, "E", row), t);
      var o := EvaluateRow(d, row, t);
      assert TotalAfter(d, n) == After(t, o);
      assert Outcomes(d, n) == Outcomes(d, n - 1) + [o];
    }
  }

  /** The worksheet with the three cells of one row emptied. */
  function ClearRow(d: Decimals, row: int): Decimals
  {
    d - {Address("F", row), Address("C", row), Address("E", row)}
  }

  /** d and s hold the same F, C and E cells in `row`. */
  predicate SameCells(d: Decimals, s: Decimals, row: int)
  {
    Lookup(d, "F", row) == Lookup(s, "F", row) && Lookup(d, "C", row) == Lookup(s, "C", row)
    && Lookup(d, "E", row) == Lookup(s, "E", row)
  }

  /** Emptying one row leaves every other row's cells as they were. */
  lemma ClearedRowOnly(d: Decimals, cleared: int)
    ensures forall row :: row != cleared ==> SameCells(d, ClearRow(d, cleared), row)
  {
    forall row | row != cleared ensures SameCells(d, ClearRow(d, cleared), row) {
      OtherRowsUnchanged(d, cleared, row);
    }
  }

  lemma OtherRowsUnchanged(d: Decimals, cleared: int, row: int)
    requires row != cleared
    ensures SameCells(d, ClearRow(d, cleared), row)
  {
    var s := ClearRow(d, cleared);
    assert Lookup(s, "F", row) == Lookup(d, "F", row);
    assert Lookup(s, "C", row) == Lookup(d, "C", row);
    assert Lookup(s, "E", row) == Lookup(d, "E", row);
  }

  /** Two worksheets whose totals agree before a row, and whose outcomes for
      that row move that total alike, agree after it. */
  lemma StepsAgree(d: Decimals, s: Decimals, n: nat)
    requires 0 < n <= RowCount && TotalAfter(d, n - 1) == TotalAfter(s, n - 1)
    requires var row, t := FirstRow + n - 1, TotalAfter(d, n - 1);
             After(t, EvaluateRow(d, row, t)) == After(t, EvaluateRow(s, row, t))
    ensures TotalAfter(d, n) == TotalAfter(s, n)
  {
  }

  /** Worksheets that agree on the total after m rows and on the cells of
      rows m through n - 1 agree on the total after n rows. */
  lemma {:induction false} TotalsAgree(d: Decimals, s: Decimals, m: nat, n: nat)
    requires m <= n <= RowCount && TotalAfter(d, m) == TotalAfter(s, m)
    requires forall row :: FirstRow + m <= row < FirstRow + n ==> SameCells(d, s, row)
    ensures TotalAfter(d, n) == TotalAfter(s, n)
  {
    if n > m {
      TotalsAgree(d, s, m, n - 1);
      assert SameCells(d, s, FirstRow + n - 1);
      StepsAgree(d, s, n);
    }
  }

  /** A row whose arithmetic raises is caught and skipped: the scan comes out
      exactly as if that row were empty, so every other row's contribution
      is kept. */
  lemma FailedRowActsAsEmpty(d: Decimals, k: nat, n: nat)
    requires k < n <= RowCount
    requires EvaluateRow(d, FirstRow + k, TotalAfter(d, k)) == RowError
    ensures TotalAfter(d, n) == TotalAfter(ClearRow(d, FirstRow + k), n)
  {
    ClearedRowStep(d, k);
    ClearedRowOnly(d, FirstRow + k);
    TotalsAgree(d, ClearRow(d, FirstRow + k), k + 1, n);
  }

  /** Emptying the failed row k leaves the total after it unchanged. */
  lemma ClearedRowStep(d: Decimals, k: nat)
    requires k < RowCount
    requires EvaluateRow(d, FirstRow + k, TotalAfter(d, k)) == RowError
    ensures TotalAfter(d, k + 1) == TotalAfter(ClearRow(d, FirstRow + k), k + 1)
  {
    var s := ClearRow(d, FirstRow + k);
    PrefixUnaffected(d, FirstRow + k, k);
    assert Lookup(s, "F", FirstRow + k).None?;
    StepsAgree(d, s, k + 1);
  }

  /** Emptying a row does not change the total before it. */
  lemma PrefixUnaffected(d: Decimals, cleared: int, n: nat)
    requires n <= RowCount && FirstRow + n <= cleared
    ensures TotalAfter(d, n) == TotalAfter(ClearRow(d, cleared), n)
  {
    ClearedRowOnly(d, cleared);
    TotalsAgree(d, ClearRow(d, cleared), 0, n);
  }

  /** When no row but one has all three cells filled, the total is what that
      one row contributes to a zero total. */
  lemma {:induction false} SingleDataRow(d: Decimals, k: nat, n: nat)
    requires k < RowCount && n <= RowCount
    requires forall row :: FirstRow <= row <= LastRow && row != FirstRow + k ==> Lookup(d, "F", row).None?
    ensures TotalAfter(d, n) == if n <= k then 0.0 else After(0.0, EvaluateRow(d, FirstRow + k, 0.0))
  {
    if n > 0 {
      SingleDataRow(d, k, n - 1);
    }
  }

  /** Row 10 holding F=50, C=100, E=1000 and the rest of the window empty
      gives a total of 500.00. */
  lemma OneRowExample()
    ensures Quantize(TotalAfter(DecimalView(map[Address("F", 10) := IntValue(50), Address("C", 10) := IntValue(100),
                                                Address("E", 10) := IntValue(1000)]), RowCount)) == Some(500.0)
  {
    var d := DecimalView(map[Address("F", 10) := IntValue(50), Address("C", 10) := IntValue(100),
                             Address("E", 10) := IntValue(1000)]);
    OneRowCells();
    SingleDataRow(d, 0, RowCount);
    RowTenAdds();
    QuantizeFiveHundred();
  }

  lemma OneRowCells()
    ensures var d := DecimalView(map[Address("F", 10) := IntValue(50), Address("C", 10) := IntValue(100),
                                     Address("E", 10) := IntValue(1000)]);
            Lookup(d, "F", 10) == Some(50.0) && Lookup(d, "C", 10) == Some(100.0)
            && Lookup(d, "E", 10) == Some(1000.0)
            && forall row :: row != 10 ==> Lookup(d, "F", row).None?
  {
    IntCellIsExact(50);
    IntCellIsExact(100);
    IntCellIsExact(1000);
  }

  /** F=50, C=100, E=1000 on a zero total adds (50/100)*1000 = 500. */
  lemma RowTenAdds()
    ensures Accumulated(50.0, 100.0, 1000.0, 0.0) == Added(500.0)
  {
    assert Pow10(6) == 1000000;
    BelowPow10(Abs(50.0 / 100.0), Emax + 1, 6);
    BelowPow10(Abs(50.0 / 100.0 * 1000.0), Emax + 1, 6);
    BelowPow10(Abs(0.0 + 50.0 / 100.0 * 1000.0), Emax + 1, 6);
  }

  lemma QuantizeFiveHundred()
    ensures Quantize(500.0) == Some(500.0)
  {
    assert Pow10(6) == 1000000;
    RoundKeepsCents(500.0);
    assert IsCents(500.0);
    BelowPow10(Abs(500.0) * 100.0, Precision, 6);
  }

  /** A window whose only data row has C = 0 is skipped without raising and
      totals 0.00. */
  lemma ZeroBaseExample()
    ensures Quantize(TotalAfter(DecimalView(map[Address("F", 10) := IntValue(5), Address("C", 10) := IntValue(0),
                                                Address("E", 10) := IntValue(7)]), RowCount)) == Some(0.0)
  {
    var d := DecimalView(map[Address("F", 10) := IntValue(5), Address("C", 10) := IntValue(0),
                             Address("E", 10) := IntValue(7)]);
    IntCellIsExact(0);
    assert Lookup(d, "C", 10) == Some(0.0);
    assert Lookup(d, "F", 10).Some? && Lookup(d, "E", 10).Some?;
    SingleDataRow(d, 0, RowCount);
    assert EvaluateRow(d, 10, 0.0) == DivisionByZero;
    RoundKeepsCents(0.0);
    assert IsCents(0.0);
    BelowPow10(Abs(0.0) * 100.0, Precision, 0);
  }

  /** Why the retrieval block (lines 53-95) fell through to its handler. */
  datatype RetrievalError =
    | PercentageUnassigned  // total or contract was zero, so line 85 reads an unbound name
    | ArithmeticFailed      // a division or sum overflowed, or a quantize had too many digits

  /** What the retrieval block reports: the this-period percentage as printed
      (rounded) and the rounded total-accomplished percentage, or the error
      its handler prints. */
  datatype Report =
    | Reported(thisPeriod: real, totalAccomplished: real)
    | RetrievalFailed(error: RetrievalError)

  /** Lines 77-88: the percentages from the rounded expense total, the
      coerced "accomplished before period" cell H3 and the coerced approved
      contract E117. */
  function Percentages(total: real, before: real, contract: real): (r: Report)
    ensures r.Reported? ==> total != 0.0 && contract != 0.0
    ensures total == 0.0 || contract == 0.0 ==> r == RetrievalFailed(PercentageUnassigned)
    ensures r == RetrievalFailed(PercentageUnassigned) ==> total == 0.0 || contract == 0.0
    ensures r.Reported? ==> IsCents(r.thisPeriod) && IsCents(r.totalAccomplished)
    ensures r.Reported? ==> Abs(r.thisPeriod - total / contract * 100.0) <= 0.005
    ensures r.Reported? ==> r.thisPeriod == RoundHalfUpCents(total / contract * 100.0)
    ensures r.Reported? ==> Abs(r.totalAccomplished - (before + total / contract * 100.0)) <= 0.005
    ensures total != 0.0 && contract != 0.0 ==>
              var p := total / contract * 100.0;
              (r.Reported? <==> !Overflows(total / contract) && !Overflows(p) && Quantize(p).Some?
                                && !Overflows(before + p) && Quantize(before + p).Some?)
  {
    if total == 0.0 || contract == 0.0 then RetrievalFailed(PercentageUnassigned)
    else
      var ratio := total / contract;
      var percentage := ratio * 100.0;
      if Overflows(ratio) || Overflows(percentage) then RetrievalFailed(ArithmeticFailed)
      else match Quantize(percentage)
        case None => RetrievalFailed(ArithmeticFailed)
        case Some(shown) =>
          if Overflows(before + percentage) then RetrievalFailed(ArithmeticFailed)
          else match Quantize(before + percentage)
            case None => RetrievalFailed(ArithmeticFailed)
            case Some(accomplished) => Reported(shown, accomplished)
  }

  /** A figure below 10^21 in magnitude neither overflows nor is too wide
      to quantize. */
  lemma ModestFigureFits(x: real)
    requires Abs(x) < 1000000000000000000000.0
    ensures !Overflows(x) && Quantize(x).Some?
  {
    assert Pow10(10) == 10000000000;
    assert Pow10(20) == 100000000000000000000;
    assert Pow10(21) == 1000000000000000000000;
    assert Pow10(24) == 1000000000000000000000000;
    BelowPow10(Abs(x), Emax + 1, 21);
    RoundedIsClose(x);
    var q := RoundHalfUpCents(x);
    assert Abs(q) < 1000000000000000000001.0;
    assert Abs(q) * 100.0 < 1000000000000000000000000.0;
    BelowPow10(Abs(q) * 100.0, Precision, 24);
  }

  /** Any realistic pair of figures is reported: with a non-zero total and
      contract, a this-period share and a prior share each below 10^20
      percent give both percentages. */
  lemma ModestFiguresAreReported(total: real, before: real, contract: real)
    requires total != 0.0 && contract != 0.0
    requires Abs(total / contract * 100.0) < 100000000000000000000.0
    requires Abs(before) < 100000000000000000000.0
    ensures Percentages(total, before, contract).Reported?
  {
    var p := total / contract * 100.0;
    assert Abs(total / contract) < 100000000000000000000.0;
    ModestFigureFits(total / contract);
    ModestFigureFits(p);
    assert Abs(before + p) < 1000000000000000000000.0;
    ModestFigureFits(before + p);
  }

  /** Lines 77-88 as the script runs them, one statement after another. */
  method ReportPercentages(total: real, before: real, contract: real) returns (report: Report)
    ensures report == Percentages(total, before, contract)
  {
    if total != 0.0 && contract != 0.0 {
      var ratio := total / contract;
      if Overflows(ratio) {
        return RetrievalFailed(ArithmeticFailed);
      }
      var percentage := ratio * 100.0;
      assert percentage == total / contract * 100.0;
      if Overflows(percentage) {
        return RetrievalFailed(ArithmeticFailed);
      }
      var shown := Quantize(percentage);
      if shown.None? {
        return RetrievalFailed(ArithmeticFailed);
      }
      var accomplished := before + percentage;
      assert accomplished == before + total / contract * 100.0;
      if Overflows(accomplished) {
        return RetrievalFailed(ArithmeticFailed);
      }
      var rounded := Quantize(accomplished);
      if rounded.None? {
        return RetrievalFailed(ArithmeticFailed);
      }
      report := Reported(shown.value, rounded.value);
    } else {
      report := RetrievalFailed(PercentageUnassigned);
    }
  }

  /** The total-accomplished figure rounds `before + percentage` once, with the
      unrounded this-period percentage as the addend. */
  lemma AccomplishedRoundedOnce(total: real, before: real, contract: real)
    requires Percentages(total, before, contract).Reported?
    ensures Percentages(total, before, contract).totalAccomplished
         == RoundHalfUpCents(before + total / contract * 100.0)
  {
    QuantizeFailsOnlyWhenTooWide(before + total / contract * 100.0);
  }

  /** With 10.004 accomplished before and a this-period share of 0.004
      percent the figure is 10.01; adding the printed 0.00 instead would
      give 10.00. */
  lemma RoundingOnceDiffersFromAddingRounded()
    ensures RoundHalfUpCents(10.004 + 0.004) == 10.01
    ensures RoundHalfUpCents(10.004 + RoundHalfUpCents(0.004)) == 10.0
  {
    assert HalfUp(1000.8) == 1001;
    assert HalfUp(0.4) == 0;
    assert HalfUp(1000.4) == 1000;
  }

  /** How a run of the script ends. */
  datatype RunOutcome =
    | Crashed(rawTotal: real)             // the quantize at line 50 raised outside any handler
    | Finished(total: real, report: Report)

  /** The whole script on a worksheet. */
  function Run(sheet: Sheet): (r: RunOutcome)
    ensures r.Finished? ==> r.total == RoundHalfUpCents(TotalAfter(DecimalView(sheet), RowCount))
    ensures r.Crashed? ==> r.rawTotal == TotalAfter(DecimalView(sheet), RowCount)
    ensures r.Crashed? <==> Quantize(TotalAfter(DecimalView(sheet), RowCount)).None?
    ensures r.Finished? ==>
              r.report == Percentages(r.total, ToDecimal(Cell(sheet, "H", 3)), ToDecimal(Cell(sheet, "E", 117)))
  {
    var raw := TotalAfter(DecimalView(sheet), RowCount);
    QuantizeFailsOnlyWhenTooWide(raw);
    match Quantize(raw)
    case None => Crashed(raw)
    case Some(total) =>
      Finished(total, Percentages(total, ToDecimal(Cell(sheet, "H", 3)), ToDecimal(Cell(sheet, "E", 117))))
  }

  /** Lines 11-95: scan, round, then retrieve and report. The identifying
      cells B1-B4 and H1 are only printed; H2 is coerced (which cannot
      raise) and then never used. */
  method RunImport(sheet: Sheet) returns (outcome: RunOutcome)
    ensures outcome == Run(sheet)
  {
    var raw, _ := ScanExpenses(sheet);
    var total := Quantize(raw);
    if total.None? {
      return Crashed(raw);
    }
    var before := ToDecimal(Cell(sheet, "H", 3));
    var contract := ToDecimal(Cell(sheet, "E", 117));
    var report := ReportPercentages(total.value, before, contract);
    outcome := Finished(total.value, report);
  }

  /** An empty worksheet totals 0.00, and the retrieval block then ends in its
      error handler rather than reporting a zero percentage. */
  lemma EmptySheetReportsError()
    ensures Run(map[]) == Finished(0.0, RetrievalFailed(PercentageUnassigned))
  {
    var d := DecimalView(map[]);
    SingleDataRow(d, 0, RowCount);
    assert TotalAfter(d, RowCount) == 0.0;
    RoundKeepsCents(0.0);
    assert IsCents(0.0);
    BelowPow10(Abs(0.0) * 100.0, Precision, 0);
  }
}
