/** `updateProjectTable` (static/js/script.js): rows of an uploaded sheet are
    added to the project table one by one; a project whose name is already
    shown is overwritten only if the user confirms, and otherwise skipped. */
module ProjectTable {
  import opened JsValues
  import opened ProjectStatus

  /** A row of the project table, by the text of its name and status cells
      and the class of its status tag. */
  datatype TableRow = TableRow(name: string, status: string, statusClass: string)

  /** One row of the uploaded sheet: its `Name` cell, the `parseFloat` of
      Budget, Expenses and Progress, the days left until End, and the answer
      the user gives if asked to overwrite. */
  datatype Upload = Upload(name: JsValue, budget: JsNumber, expenses: JsNumber, progress: JsNumber,
                           remainingDays: JsNumber, overwrite: bool)

  /** How a project name is turned into the key that is looked up:
      AsWritten uses the raw `Name` value, Trimmed the trimmed text of
      `String(Name)`, which is what an existing row's key is. */
  datatype KeyMode = AsWritten | Trimmed

  function Key(name: JsValue, mode: KeyMode): JsValue
  {
    match mode
    case AsWritten => name
    case Trimmed => Str(Trim(ValueText(name)))
  }

  /** The key of a row already in the table: `textContent.trim()` of its
      first cell. */
  function RowKey(r: TableRow): JsValue
  {
    Str(Trim(r.name))
  }

  /** The row built for an uploaded project: its name as `${Name}` renders
      it, and its computed status with that status's class. */
  function NewRow(u: Upload): (r: TableRow)
    ensures RowKey(r) == Key(u.name, Trimmed)
    ensures r.status == CalculateStatus(u.budget, u.expenses, u.progress, u.remainingDays)
    ensures r.statusClass == StatusClass(r.status)
    ensures r.status in Labels && r.statusClass != "status-unknown"
  {
    var status := CalculateStatus(u.budget, u.expenses, u.progress, u.remainingDays);
    TableRow(ValueText(u.name), status, StatusClass(status))
  }

  /** Index of the first row whose key is key; |rows| when there is none. */
  function FindRow(rows: seq<TableRow>, key: JsValue): (k: nat)
    ensures k <= |rows|
    ensures k < |rows| ==> RowKey(rows[k]) == key
    ensures forall j :: 0 <= j < k ==> RowKey(rows[j]) != key
  {
    if rows == [] then 0
    else if RowKey(rows[0]) == key then 0
    else 1 + FindRow(rows[1..], key)
  }

  /** rows without the row at index k, if there is one. */
  function RemoveAt(rows: seq<TableRow>, k: nat): (kept: seq<TableRow>)
    ensures |kept| == if k < |rows| then |rows| - 1 else |rows|
  {
    if k < |rows| then rows[..k] + rows[k + 1..] else rows
  }

  /** The table rows and the `existingProjectNames` set. */
  datatype State = State(rows: seq<TableRow>, seen: set<JsValue>)

  /** The keys of all rows. */
  function Keys(rows: seq<TableRow>): set<JsValue>
  {
    set r | r in rows :: RowKey(r)
  }

  /** Lines 98-103: the set starts with the key of every row on display. */
  function Initial(rows: seq<TableRow>): State
  {
    State(rows, Keys(rows))
  }

  /** Lines 105-160: one project. Asked whether to overwrite a name in the
      set, a "no" leaves everything as it is; otherwise the first row with
      that name is removed (when there is one), the key is added and the new
      row is appended. */
  function Step(s: State, u: Upload, mode: KeyMode): (t: State)
    ensures Key(u.name, mode) in s.seen && !u.overwrite ==> t == s
    ensures Key(u.name, mode) !in s.seen ==> t.rows == s.rows + [NewRow(u)]
    ensures Key(u.name, mode) in s.seen && u.overwrite ==>
              t.rows == RemoveAt(s.rows, FindRow(s.rows, Key(u.name, mode))) + [NewRow(u)]
    ensures t.seen == s.seen + {Key(u.name, mode)}
    ensures |s.rows| <= |t.rows| <= |s.rows| + 1
  {
    var key := Key(u.name, mode);
    if key in s.seen && !u.overwrite then s
    else
      var kept := if key in s.seen then RemoveAt(s.rows, FindRow(s.rows, key)) else s.rows;
      State(kept + [NewRow(u)], s.seen + {key})
  }

  /** `projects.forEach(...)`: the projects in upload order. */
  function Process(s: State, us: seq<Upload>, mode: KeyMode): (t: State)
    ensures s.seen <= t.seen
    ensures |s.rows| <= |t.rows| <= |s.rows| + |us|
    decreases |us|
  {
    if us == [] then s else Process(Step(s, us[0], mode), us[1..], mode)
  }

  /** Processing one more upload is one more step. */
  lemma ProcessOneMore(s: State, us: seq<Upload>, j: nat, mode: KeyMode)
    requires j < |us|
    ensures Process(s, us[..j + 1], mode) == Step(Process(s, us[..j], mode), us[j], mode)
  {
    var before := Process(s, us[..j], mode);
    ProcessAppend(s, us[..j], [us[j]], mode);
    assert us[..j + 1] == us[..j] + [us[j]];
    assert [us[j]][1..] == [];
    assert Process(before, [us[j]], mode) == Process(Step(before, us[j], mode), [], mode);
  }

  /** Processing a concatenation is processing its parts in turn. */
  lemma {:induction false} ProcessAppend(s: State, us: seq<Upload>, vs: seq<Upload>, mode: KeyMode)
    ensures Process(s, us + vs, mode) == Process(Process(s, us, mode), vs, mode)
    decreases |us|
  {
    if us == [] {
      assert us + vs == vs;
    } else {
      assert (us + vs)[0] == us[0];
      assert (us + vs)[1..] == us[1..] + vs;
      ProcessAppend(Step(s, us[0], mode), us[1..], vs, mode);
    }
  }

  /** Declining an overwrite skips that project only: the `return` leaves
      the callback, not the loop, so the projects after it are processed
      exactly as if it had not been uploaded. */
  lemma DeclineSkipsOnlyThatProject(s: State, us: seq<Upload>, u: Upload, vs: seq<Upload>, mode: KeyMode)
    requires Key(u.name, mode) in Process(s, us, mode).seen && !u.overwrite
    ensures Process(s, us + [u] + vs, mode) == Process(s, us + vs, mode)
  {
    ProcessAppend(s, us + [u], vs, mode);
    ProcessAppend(s, us, [u], mode);
    ProcessAppend(s, us, vs, mode);
    assert [u][1..] == [];
  }

  /** The set only grows, and holds the key of every project processed. */
  lemma {:induction false} NamesAreRemembered(s: State, us: seq<Upload>, mode: KeyMode)
    ensures s.seen <= Process(s, us, mode).seen
    ensures forall u :: u in us ==> Key(u.name, mode) in Process(s, us, mode).seen
    decreases |us|
  {
    if us != [] {
      NamesAreRemembered(Step(s, us[0], mode), us[1..], mode);
      forall u | u in us ensures Key(u.name, mode) in Process(s, us, mode).seen {
        if u != us[0] {
          assert u in us[1..];
        }
      }
    }
  }

  /** A name repeated later in the same upload is asked about again, even
      when the first one was newly added. */
  lemma RepeatedNamePrompts(s: State, us: seq<Upload>, u: Upload, vs: seq<Upload>, v: Upload, mode: KeyMode)
    requires Key(v.name, mode) == Key(u.name, mode)
    ensures Key(v.name, mode) in Process(s, us + [u] + vs, mode).seen
  {
    NamesAreRemembered(s, us + [u] + vs, mode);
    assert u in us + [u] + vs;
  }

  /** No two rows share a key. */
  predicate DistinctKeys(rows: seq<TableRow>)
  {
    forall i, j :: 0 <= i < j < |rows| ==> RowKey(rows[i]) != RowKey(rows[j])
  }

  /** The set is the keys of the rows, and no two rows share a key. */
  predicate Consistent(s: State)
  {
    s.seen == Keys(s.rows) && DistinctKeys(s.rows)
  }

  lemma KeysAppend(rows: seq<TableRow>, r: TableRow)
    ensures Keys(rows + [r]) == Keys(rows) + {RowKey(r)}
  {
    assert forall x :: x in rows + [r] <==> x in rows || x == r;
  }

  lemma DistinctAppend(rows: seq<TableRow>, r: TableRow)
    requires DistinctKeys(rows) && RowKey(r) !in Keys(rows)
    ensures DistinctKeys(rows + [r])
  {
    var t := rows + [r];
    forall i, j | 0 <= i < j < |t| ensures RowKey(t[i]) != RowKey(t[j]) {
      if j == |rows| {
        assert t[i] == rows[i];
        assert t[i] in rows;
      } else {
        assert t[i] == rows[i] && t[j] == rows[j];
      }
    }
  }

  /** The row at index k of rows without the row at index r. */
  lemma RemoveAtIndex(rows: seq<TableRow>, r: nat, k: nat)
    requires r < |rows| && k < |rows| - 1
    ensures RemoveAt(rows, r)[k] == if k < r then rows[k] else rows[k + 1]
  {
  }

  lemma DistinctRemove(rows: seq<TableRow>, r: nat)
    requires r < |rows| && DistinctKeys(rows)
    ensures DistinctKeys(RemoveAt(rows, r))
  {
    var t := RemoveAt(rows, r);
    forall i, j | 0 <= i < j < |t| ensures RowKey(t[i]) != RowKey(t[j]) {
      RemoveAtIndex(rows, r, i);
      RemoveAtIndex(rows, r, j);
    }
  }

  /** Removing the only row with a key removes that key and no other. */
  lemma KeysRemove(rows: seq<TableRow>, k: nat)
    requires k < |rows| && DistinctKeys(rows)
    ensures Keys(RemoveAt(rows, k)) == Keys(rows) - {RowKey(rows[k])}
  {
    forall x | x in Keys(rows) - {RowKey(rows[k])} ensures x in Keys(RemoveAt(rows, k)) {
      var i :| 0 <= i < |rows| && RowKey(rows[i]) == x;
      KeptRowStays(rows, k, i);
    }
    forall x | x in Keys(RemoveAt(rows, k)) ensures x in Keys(rows) - {RowKey(rows[k])} {
      var i :| 0 <= i < |RemoveAt(rows, k)| && RowKey(RemoveAt(rows, k)[i]) == x;
      RemainingRowWasKept(rows, k, i);
    }
  }

  /** A row other than the removed one keeps its key in the table. */
  lemma KeptRowStays(rows: seq<TableRow>, k: nat, i: nat)
    requires k < |rows| && i < |rows| && i != k
    ensures RowKey(rows[i]) in Keys(RemoveAt(rows, k))
  {
    var rest := RemoveAt(rows, k);
    var j := if i < k then i else i - 1;
    RemoveAtIndex(rows, k, j);
    assert rest[j] == rows[i];
  }

  /** A row left after the removal is a row with another key. */
  lemma RemainingRowWasKept(rows: seq<TableRow>, k: nat, i: nat)
    requires k < |rows| && DistinctKeys(rows) && i < |RemoveAt(rows, k)|
    ensures RowKey(RemoveAt(rows, k)[i]) in Keys(rows)
    ensures RowKey(RemoveAt(rows, k)[i]) != RowKey(rows[k])
  {
    var j := if i < k then i else i + 1;
    RemoveAtIndex(rows, k, i);
    assert RemoveAt(rows, k)[i] == rows[j] && j != k;
  }

  /** A key in the set has a row, so the search finds one. */
  lemma FindsSeenKey(rows: seq<TableRow>, key: JsValue)
    requires key in Keys(rows)
    ensures FindRow(rows, key) < |rows|
  {
    var i :| 0 <= i < |rows| && RowKey(rows[i]) == key;
  }

  /** Comparing trimmed text, each step keeps the set equal to the keys of
      the rows and the rows free of repeated names. */
  lemma TrimmedStepConsistent(s: State, u: Upload)
    requires Consistent(s)
    ensures Consistent(Step(s, u, Trimmed))
  {
    var key := Key(u.name, Trimmed);
    if key !in s.seen {
      KeysAppend(s.rows, NewRow(u));
      DistinctAppend(s.rows, NewRow(u));
    } else if u.overwrite {
      var k := FindRow(s.rows, key);
      FindsSeenKey(s.rows, key);
      var kept := RemoveAt(s.rows, k);
      KeysRemove(s.rows, k);
      DistinctRemove(s.rows, k);
      KeysAppend(kept, NewRow(u));
      DistinctAppend(kept, NewRow(u));
    }
  }

  /** Comparing trimmed text, a table without repeated names never gets one,
      and every uploaded project's name ends up in it. */
  lemma {:induction false} TrimmedNamesStayUnique(s: State, us: seq<Upload>)
    requires Consistent(s)
    ensures Consistent(Process(s, us, Trimmed))
    ensures forall u :: u in us ==> Key(u.name, Trimmed) in Keys(Process(s, us, Trimmed).rows)
    decreases |us|
  {
    if us != [] {
      TrimmedStepConsistent(s, us[0]);
      TrimmedNamesStayUnique(Step(s, us[0], Trimmed), us[1..]);
    }
    NamesAreRemembered(s, us, Trimmed);
  }

  /** A project named by a number: `sheet_to_json` gives the number 7. */
  const Seven: Upload := Upload(Num("7"), Finite(100.0), Finite(50.0), Finite(20.0), Finite(30.0), true)

  /** As written, uploading project 7 twice and confirming the overwrite
      leaves two rows named 7: the set holds the number, the rows hold text,
      so the row search finds nothing to remove. With trimmed keys the
      second upload replaces the first. */
  lemma NumericNameDuplicates()
    ensures |Process(Initial([]), [Seven, Seven], AsWritten).rows| == 2
    ensures Process(Initial([]), [Seven, Seven], AsWritten).rows[0].name == "7"
    ensures Process(Initial([]), [Seven, Seven], AsWritten).rows[1].name == "7"
    ensures |Process(Initial([]), [Seven, Seven], Trimmed).rows| == 1
  {
    var s0 := Initial([]);
    assert Keys([]) == {};
    var r := NewRow(Seven);
    assert r.name == "7";
    assert Trim("7") == "7" by {
      assert !IsJsSpace('7');
      assert TrimStart("7") == "7";
      assert TrimEnd("7") == "7";
    }
    assert RowKey(r) == Str("7");
    // As written: the set holds the number, the row's key is text.
    var w1 := Step(s0, Seven, AsWritten);
    assert w1 == State([r], {Num("7")});
    assert FindRow([r], Num("7")) == 1;
    var w2 := Step(w1, Seven, AsWritten);
    assert w2.rows == [r, r];
    assert Process(s0, [Seven, Seven], AsWritten) == Process(w1, [Seven], AsWritten) == w2;
    // Trimmed: the second upload finds and replaces the first row.
    var t1 := Step(s0, Seven, Trimmed);
    assert t1 == State([r], {Str("7")});
    assert FindRow([r], Str("7")) == 0;
    var t2 := Step(t1, Seven, Trimmed);
    assert t2.rows == [r];
    assert Process(s0, [Seven, Seven], Trimmed) == Process(t1, [Seven], Trimmed) == t2;
  }

  /** The project table as displayed. */
  class ProjectList {
    var rows: seq<TableRow>

    constructor (rows: seq<TableRow>)
      ensures this.rows == rows
    {
      this.rows := rows;
    }

    /** Lines 96-162: `updateProjectTable(projects)`; mode says how an
        uploaded name is compared with the names on display. */
    method UpdateProjectTable(projects: seq<Upload>, mode: KeyMode)
      modifies this
      ensures rows == Process(Initial(old(rows)), projects, mode).rows
    {
      var seen := DisplayedNames();
      ghost var start := State(rows, seen);
      for j := 0 to |projects|
        invariant State(rows, seen) == Process(start, projects[..j], mode)
      {
        ProcessOneMore(start, projects, j, mode);
        seen := AddProject(projects[j], seen, mode);
      }
      assert projects[..|projects|] == projects;
    }

    /** Lines 98-103: the trimmed name of every row on display. */
    method DisplayedNames() returns (seen: set<JsValue>)
      ensures seen == Keys(rows)
    {
      seen := {};
      for i := 0 to |rows|
        invariant seen == Keys(rows[..i])
      {
        KeysAppend(rows[..i], rows[i]);
        assert rows[..i + 1] == rows[..i] + [rows[i]];
        seen := seen + {RowKey(rows[i])};
      }
      assert rows[..|rows|] == rows;
    }

    /** Lines 105-160: the `forEach` callback for one project, given the
        set of names seen so far; returns the set as the callback leaves it. */
    method AddProject(u: Upload, seen: set<JsValue>, mode: KeyMode) returns (seenAfter: set<JsValue>)
      modifies this
      ensures State(rows, seenAfter) == Step(State(old(rows), seen), u, mode)
    {
      var key := Key(u.name, mode);
      if key in seen {
        if !u.overwrite {
          return seen;
        }
        var k := FindRow(rows, key);
        if k < |rows| {
          rows := rows[..k] + rows[k + 1..];
        }
      }
      seenAfter := seen + {key};
      var status := CalculateStatus(u.budget, u.expenses, u.progress, u.remainingDays);
      rows := rows + [TableRow(ValueText(u.name), status, StatusClass(status))];
    }
  }
}
