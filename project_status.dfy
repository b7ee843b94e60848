/** The status rules of the project list (static/js/script.js):
    `calculateStatus`, a priority-ordered classifier, and `getStatusClass`,
    the lookup from status label to CSS class. */
module ProjectStatus {
  import opened JsValues

  /** The four labels `calculateStatus` can return. */
  const Labels: set<string> := {"Completed", "Budget Overrun", "Delayed", "On Track"}

  /** `calculateStatus(budget, expenses, progress, endDate)`, given the days
      left until the end date (NaN when the end date does not parse). */
  function CalculateStatus(budget: JsNumber, expenses: JsNumber, progress: JsNumber,
                           remainingDays: JsNumber): (status: string)
    ensures status in Labels
    ensures status == "Completed" <==> progress == Finite(100.0)
    ensures status == "Budget Overrun" <==> progress != Finite(100.0) && Less(budget, expenses)
    ensures status == "Delayed" <==>
              progress != Finite(100.0) && !Less(budget, expenses)
              && Less(progress, Finite(50.0)) && Less(remainingDays, Finite(14.0))
    ensures status == "On Track" <==>
              progress != Finite(100.0) && !Less(budget, expenses)
              && !(Less(progress, Finite(50.0)) && Less(remainingDays, Finite(14.0)))
  {
    if progress == Finite(100.0) then "Completed"
    else if Less(budget, expenses) then "Budget Overrun"
    else if Less(progress, Finite(50.0)) && Less(remainingDays, Finite(14.0)) then "Delayed"
    else "On Track"
  }

  /** A finished project is "Completed" whatever its money and dates say. */
  lemma CompletedWins(budget: JsNumber, expenses: JsNumber, remainingDays: JsNumber)
    ensures CalculateStatus(budget, expenses, Finite(100.0), remainingDays) == "Completed"
  {
  }

  /** An overrun outranks a looming deadline: low progress with two days left
      still reads "Budget Overrun" when expenses exceed the budget. */
  lemma OverrunOutranksDelay()
    ensures CalculateStatus(Finite(1000.0), Finite(1500.0), Finite(10.0), Finite(2.0)) == "Budget Overrun"
  {
  }

  /** A field that is not a number never raises an alarm: a NaN budget or
      expense is never an overrun, and NaN progress or an end date that does
      not parse is never "Delayed". */
  lemma NaNNeverAlarms(budget: JsNumber, expenses: JsNumber, progress: JsNumber, remainingDays: JsNumber)
    ensures budget == NaN || expenses == NaN ==>
              CalculateStatus(budget, expenses, progress, remainingDays) != "Budget Overrun"
    ensures progress == NaN || remainingDays == NaN ==>
              CalculateStatus(budget, expenses, progress, remainingDays) != "Delayed"
  {
  }

  /** `getStatusClass(status)` with the table's own entries only. */
  function StatusClass(status: string): (cls: string)
    ensures status == "Completed" ==> cls == "status-completed"
    ensures status == "Budget Overrun" || status == "Delayed" ==> cls == "status-delayed"
    ensures status == "On Track" ==> cls == "status-ontrack"
    ensures status !in Labels ==> cls == "status-unknown"
  {
    if status == "Completed" then "status-completed"
    else if status == "Budget Overrun" || status == "Delayed" then "status-delayed"
    else if status == "On Track" then "status-ontrack"
    else "status-unknown"
  }

  /** Every status the classifier produces has a known class. */
  lemma ComputedStatusHasKnownClass(budget: JsNumber, expenses: JsNumber, progress: JsNumber,
                                    remainingDays: JsNumber)
    ensures StatusClass(CalculateStatus(budget, expenses, progress, remainingDays)) != "status-unknown"
  {
  }

  /** Property names every plain object inherits from Object.prototype. */
  const InheritedKeys: set<string> := {
    "constructor", "hasOwnProperty", "isPrototypeOf", "propertyIsEnumerable",
    "toLocaleString", "toString", "valueOf", "__proto__",
    "__defineGetter__", "__defineSetter__", "__lookupGetter__", "__lookupSetter__"
  }

  /** What `{...}[status] || "status-unknown"` evaluates to: a class name, or
      a member inherited from Object.prototype, which is truthy and so is
      returned in place of the default. */
  datatype Lookup = ClassName(name: string) | InheritedMember(key: string)

  /** `getStatusClass` as written: a property lookup on an object literal. */
  function StatusClassAsWritten(status: string): (r: Lookup)
    ensures status in InheritedKeys <==> r.InheritedMember?
  {
    if status in Labels then ClassName(StatusClass(status))
    else if status in InheritedKeys then InheritedMember(status)
    else ClassName("status-unknown")
  }

  /** The lookup as written agrees with the intended table on every string
      that is not an inherited property name, and so on every status the
      classifier produces. */
  lemma AsWrittenAgreesOffPrototype(status: string)
    ensures status !in InheritedKeys ==> StatusClassAsWritten(status) == ClassName(StatusClass(status))
    ensures forall b, e, p, d :: StatusClassAsWritten(CalculateStatus(b, e, p, d))
                               == ClassName(StatusClass(CalculateStatus(b, e, p, d)))
  {
    forall b, e, p, d ensures StatusClassAsWritten(CalculateStatus(b, e, p, d))
                            == ClassName(StatusClass(CalculateStatus(b, e, p, d))) {
      var s := CalculateStatus(b, e, p, d);
      assert s in Labels;
      assert s !in InheritedKeys;
    }
  }

  /** The status "constructor" gets the Object constructor function back
      instead of "status-unknown". */
  lemma ConstructorIsNotUnknown()
    ensures StatusClassAsWritten("constructor") == InheritedMember("constructor")
    ensures StatusClass("constructor") == "status-unknown"
  {
  }
}
