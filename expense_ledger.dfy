/** The expense form of the dashboard (static/js/script.js): the submit
    handler validates one entry and appends it to the page's `expenses`
    array, and `updateExpensesDisplay` rewrites the list's text from that
    array. */
module ExpenseLedger {
  import opened JsValues
  import opened Digits

  /** One recorded expense, `{ date, desc, amount, category }`. */
  datatype Expense = Expense(date: string, desc: string, amount: JsNumber, category: string)

  const EmptyText: string := "No expenses recorded yet."
  const Header: string := "Expenses:\n"

  /** The submit handler's test: date, trimmed description and category
      non-empty, and the parsed amount a number greater than zero. */
  function Acceptable(date: string, desc: string, amount: JsNumber, category: string): (ok: bool)
    ensures ok <==> date != "" && desc != "" && category != ""
                    && (amount == Infinity(false) || (amount.Finite? && amount.value > 0.0))
  {
    date != "" && desc != "" && amount != NaN && !AtMost(amount, Finite(0.0)) && category != ""
  }

  /** The line for the expense at index i: its 1-based number, date,
      description, category and the amount as `toLocaleString` formats it. */
  function Line(i: nat, e: Expense, format: JsNumber -> string): string
  {
    NatToString(i + 1) + ". " + e.date + " - " + e.desc + " [" + e.category + "] : \U{20B1}"
    + format(e.amount) + "\n"
  }

  /** The lines of es, numbered from 1, in list order. */
  function Lines(es: seq<Expense>, format: JsNumber -> string): string
  {
    if es == [] then "" else Lines(es[..|es| - 1], format) + Line(|es| - 1, es[|es| - 1], format)
  }

  /** What the list shows for es. */
  function DisplayText(es: seq<Expense>, format: JsNumber -> string): (t: string)
    ensures es == [] ==> t == EmptyText
    ensures es != [] ==> Header <= t
    ensures es != [] ==> Header + Line(0, es[0], format) <= t
  {
    if es == [] then EmptyText
    else
      LinesInOrder(es, 0, format);
      assert Lines(es[..0], format) == "";
      Header + Lines(es, format)
  }

  /** Recording one more expense keeps every earlier line and adds the new
      one, numbered |es| + 1, at the end; the first expense replaces the
      empty-list text with the header and its line. */
  lemma {:induction false} DisplayGrowsByOneLine(es: seq<Expense>, e: Expense, format: JsNumber -> string)
    ensures DisplayText(es + [e], format)
         == (if es == [] then Header else DisplayText(es, format)) + Line(|es|, e, format)
  {
    if es == [] {
      assert Lines(es, format) == "";
    }
    var longer := es + [e];
    assert longer[..|longer| - 1] == es;
    assert longer[|longer| - 1] == e;
    assert Lines(longer, format) == Lines(es, format) + Line(|es|, e, format);
    assert Header + (Lines(es, format) + Line(|es|, e, format))
        == (Header + Lines(es, format)) + Line(|es|, e, format);
  }

  /** The i-th line of the display sits right after the lines of the
      expenses before it: lines appear in insertion order, one per expense. */
  lemma {:induction false} LinesInOrder(es: seq<Expense>, i: nat, format: JsNumber -> string)
    requires i < |es|
    ensures Lines(es[..i], format) + Line(i, es[i], format) <= Lines(es, format)
  {
    var front := es[..|es| - 1];
    var head := Lines(es[..i], format) + Line(i, es[i], format);
    assert Lines(es, format) == Lines(front, format) + Line(|es| - 1, es[|es| - 1], format);
    if i == |es| - 1 {
      assert front == es[..i];
    } else {
      LinesInOrder(front, i, format);
      assert front[..i] == es[..i] && front[i] == es[i];
      assert head <= Lines(front, format);
      PrefixOfLonger(head, Lines(front, format), Line(|es| - 1, es[|es| - 1], format));
    }
  }

  lemma PrefixOfLonger(a: string, b: string, c: string)
    requires a <= b
    ensures a <= b + c
  {
    assert (b + c)[..|a|] == b[..|a|];
  }

  /** The page's expense state: the `expenses` array and the text of the
      `expensesList` element. */
  class ExpenseList {
    var expenses: seq<Expense>
    var text: string
    /** `amount.toLocaleString(undefined, { two fraction digits })`. */
    const format: JsNumber -> string

    /** The list always shows the array, as the handler leaves it. */
    predicate Valid()
      reads this
    {
      text == DisplayText(expenses, format)
    }

    /** The page starts with an empty array and calls
        `updateExpensesDisplay` once. */
    constructor (format: JsNumber -> string)
      ensures expenses == [] && text == EmptyText && this.format == format
      ensures Valid()
    {
      expenses := [];
      this.format := format;
      text := EmptyText;
    }

    /** Lines 198-215: the submit handler for the field values as read
        from the form (`amount` is the `parseFloat` of the amount field). */
    method Submit(date: string, descField: string, amount: JsNumber, category: string) returns (accepted: bool)
      requires Valid()
      modifies this
      ensures Valid()
      ensures accepted <==> Acceptable(date, Trim(descField), amount, category)
      ensures accepted ==> expenses == old(expenses) + [Expense(date, Trim(descField), amount, category)]
      ensures !accepted ==> expenses == old(expenses) && text == old(text)
    {
      var desc := Trim(descField);
      if date == "" || desc == "" || amount == NaN || AtMost(amount, Finite(0.0)) || category == "" {
        return false;
      }
      expenses := expenses + [Expense(date, desc, amount, category)];
      UpdateDisplay();
      accepted := true;
    }

    /** Lines 217-234: `updateExpensesDisplay`. */
    method UpdateDisplay()
      modifies this
      ensures expenses == old(expenses)
      ensures text == DisplayText(expenses, format)
    {
      if |expenses| == 0 {
        text := EmptyText;
        return;
      }
      var html := Header;
      for i := 0 to |expenses|
        invariant html == Header + Lines(expenses[..i], format)
      {
        assert expenses[..i + 1][..i] == expenses[..i];
        html := html + Line(i, expenses[i], format);
      }
      assert expenses[..|expenses|] == expenses;
      text := html;
    }
  }

  /** A rejected submission: a description of spaces only, a zero amount, or
      an amount that is not a number. */
  lemma RejectedEntries()
    ensures !Acceptable("2024-05-01", Trim("   "), Finite(12.5), "Materials")
    ensures !Acceptable("2024-05-01", Trim("Cement"), Finite(0.0), "Materials")
    ensures !Acceptable("2024-05-01", Trim("Cement"), NaN, "Materials")
  {
    TrimEmptyIffAllSpace("   ");
  }

  /** The amount test lets through anything above zero that `parseFloat`
      yields, the text "Infinity" included. */
  lemma InfiniteAmountAccepted()
    ensures Acceptable("2024-05-01", "Cement", Infinity(false), "Materials")
  {
  }
}
