/** The spreadsheet scanners `process_excel` (look-up by group) and `process_excel2`
    (look-up by teacher).

    Every data row is read as consecutive (room, group, teacher) column triplets.
    The group scan visits the group columns 1, 4, 7, ... and keeps the exact
    matches; the teacher scan visits the teacher columns 2, 5, 8, ... and keeps
    the cells whose trimmed, lower-cased text starts with the trimmed,
    lower-cased key. Results come in sheet, row, column order. */
module Extractor {
  import opened Outcomes
  import opened PyText
  import opened Workbook

  /** Width of one (room, group, teacher) triplet. */
  const Stride: nat := 3

  /** What a scan looks for: a group name (compared exactly) or the normalised
      prefix of a teacher's name. */
  datatype Query = ByGroup(group: string) | ByTeacher(prefix: string)

  /** The key `process_excel2` searches with: `teacher_name.strip().lower()`. */
  function TeacherQuery(teacherName: string): Query {
    ByTeacher(Lower(Strip(teacherName)))
  }

  /** The column the scan starts at: the group column of the first triplet for a
      group scan, its teacher column for a teacher scan. */
  function Offset(q: Query): (o: nat)
    ensures 1 <= o < Stride
  {
    if q.ByGroup? then 1 else 2
  }

  /** One extracted lesson. A group scan yields `(title, room, teacher, flag)`,
      a teacher scan `(title, room, group, full teacher name, flag)`. */
  datatype Slot =
    | GroupSlot(day: string, room: Cell, teacher: Cell, classHour: bool)
    | TeacherSlot(day: string, room: Cell, group: Cell, fullName: string, classHour: bool)

  /** `'Классный час' in row`: some cell of the row is exactly the marker. */
  predicate HasClassHour(row: Row) {
    Str(ClassHour) in row
  }

  /** A teacher cell matches when it is a non-empty string whose trimmed,
      lower-cased text starts with the prefix. */
  predicate TeacherCellMatches(c: Cell, prefix: string) {
    c.Str? && c.s != "" && StartsWith(Lower(Strip(c.s)), prefix)
  }

  /** The cell at a visited column is a match. */
  predicate IsHit(q: Query, row: Row, idx: nat)
    requires idx < |row|
  {
    match q
    case ByGroup(g) => row[idx] == Str(g)
    case ByTeacher(p) => TeacherCellMatches(row[idx], p)
  }

  /** Reading the cell at a visited column raises: a group match in the last
      column (no teacher column follows it), or a truthy teacher cell that is not
      a string (it has no `strip`). */
  predicate IsFault(q: Query, row: Row, idx: nat)
    requires idx < |row|
  {
    match q
    case ByGroup(g) => row[idx] == Str(g) && idx + 1 == |row|
    case ByTeacher(_) => Truthy(row[idx]) && !row[idx].Str?
  }

  /** The exception a faulty cell raises. */
  function FaultOf(q: Query): Fault {
    if q.ByGroup? then IndexError else AttributeError
  }

  /** The lesson a matching column contributes. */
  function SlotAt(q: Query, title: string, row: Row, idx: nat, classHour: bool): Slot
    requires Offset(q) <= idx < |row| && IsHit(q, row, idx) && !IsFault(q, row, idx)
  {
    match q
    case ByGroup(_) => GroupSlot(title, row[idx - 1], row[idx + 1], classHour)
    case ByTeacher(_) => TeacherSlot(title, row[idx - 2], row[idx - 1], row[idx].s, classHour)
  }

  /** What one visited column adds to the result list, or the exception it raises. */
  function ColumnSlots(q: Query, title: string, row: Row, idx: nat, classHour: bool): (r: Result<seq<Slot>, Fault>)
    requires Offset(q) <= idx < |row|
    ensures r.Failure? <==> IsFault(q, row, idx)
    ensures r.Failure? ==> r.error == FaultOf(q)
    ensures r.Ok? && IsHit(q, row, idx) ==> r.value == [SlotAt(q, title, row, idx, classHour)]
    ensures r.Ok? && !IsHit(q, row, idx) ==> r.value == []
  {
    match q
    case ByGroup(g) =>
      if row[idx] != Str(g) then Ok([])
      else if idx + 1 == |row| then Failure(IndexError)
      else Ok([GroupSlot(title, row[idx - 1], row[idx + 1], classHour)])
    case ByTeacher(p) =>
      var cell := row[idx];
      if !Truthy(cell) then Ok([])
      else if !cell.Str? then Failure(AttributeError)
      else if StartsWith(Lower(Strip(cell.s)), p) then
        Ok([TeacherSlot(title, row[idx - 2], row[idx - 1], cell.s, classHour)])
      else Ok([])
  }

  /** The slots of the visited columns `idx, idx + 3, ...` of a row. */
  function RowFrom(q: Query, title: string, row: Row, classHour: bool, idx: nat): (r: Result<seq<Slot>, Fault>)
    requires Offset(q) <= idx
    ensures r.Failure? ==> r.error == FaultOf(q)
    ensures r.Ok? ==> forall x :: x in r.value ==>
      x.GroupSlot? == q.ByGroup? && x.day == title && x.classHour == classHour
    decreases |row| - idx
  {
    if idx >= |row| then Ok([])
    else Append(ColumnSlots(q, title, row, idx, classHour), RowFrom(q, title, row, classHour, idx + Stride))
  }

  /** The slots of one data row, whose every visited column carries the row's
      class-hour flag. */
  function RowSlots(q: Query, title: string, row: Row): Result<seq<Slot>, Fault> {
    RowFrom(q, title, row, HasClassHour(row), Offset(q))
  }

  /** The slots of the rows `i, i + 1, ...` of a sheet. */
  function RowsFrom(q: Query, title: string, rows: seq<Row>, i: nat): (r: Result<seq<Slot>, Fault>)
    requires i <= |rows|
    ensures r.Failure? ==> r.error == FaultOf(q)
    ensures r.Ok? ==> forall x :: x in r.value ==> x.GroupSlot? == q.ByGroup? && x.day == title
    decreases |rows| - i
  {
    if i == |rows| then Ok([])
    else Append(RowSlots(q, title, rows[i]), RowsFrom(q, title, rows, i + 1))
  }

  /** The slots of one sheet, header row excluded. */
  function SheetSlots(q: Query, sheet: Sheet): Result<seq<Slot>, Fault> {
    RowsFrom(q, sheet.title, DataRows(sheet), 0)
  }

  /** The slots of the sheets `s, s + 1, ...` of a workbook. */
  function SheetsFrom(q: Query, book: Book, s: nat): (r: Result<seq<Slot>, Fault>)
    requires s <= |book|
    ensures r.Failure? ==> r.error == FaultOf(q)
    ensures r.Ok? ==> forall x :: x in r.value ==> x.GroupSlot? == q.ByGroup?
    decreases |book| - s
  {
    if s == |book| then Ok([])
    else Append(SheetSlots(q, book[s]), SheetsFrom(q, book, s + 1))
  }

  /** The whole scan: sheet by sheet, row by row, column by column; the first
      exception ends it. */
  function Scan(q: Query, book: Book): Result<seq<Slot>, Fault> {
    SheetsFrom(q, book, 0)
  }

  // ----- what a row yields -----

  /** The matching visited columns from `idx` on, in ascending order. */
  ghost function HitsFrom(q: Query, row: Row, idx: nat): seq<nat>
    decreases |row| - idx
  {
    if idx >= |row| then []
    else (if IsHit(q, row, idx) then [idx] else []) + HitsFrom(q, row, idx + Stride)
  }

  /** `HitsFrom` lists exactly the matching columns `idx, idx + 3, ...`, each once,
      in ascending order. */
  lemma {:induction false} HitsFromExact(q: Query, row: Row, idx: nat)
    ensures forall k :: 0 <= k < |HitsFrom(q, row, idx)| ==> idx <= HitsFrom(q, row, idx)[k]
    ensures forall a, b :: 0 <= a < b < |HitsFrom(q, row, idx)| ==> HitsFrom(q, row, idx)[a] < HitsFrom(q, row, idx)[b]
    ensures forall c: nat :: c in HitsFrom(q, row, idx) <==>
      idx <= c < |row| && c % Stride == idx % Stride && IsHit(q, row, c)
    decreases |row| - idx
  {
    if idx < |row| {
      HitsFromExact(q, row, idx + Stride);
      forall c: nat
        ensures c in HitsFrom(q, row, idx) <==> idx <= c < |row| && c % Stride == idx % Stride && IsHit(q, row, c)
      {
        if idx < c && c % Stride == idx % Stride {
          NextCongruent(idx, c);
        }
      }
    }
  }

  /** Some visited column from `idx` on is faulty. */
  ghost predicate FaultFrom(q: Query, row: Row, idx: nat)
    decreases |row| - idx
  {
    idx < |row| && (IsFault(q, row, idx) || FaultFrom(q, row, idx + Stride))
  }

  /** A row scan from `idx` raises exactly when a visited column from `idx` on is faulty. */
  lemma {:induction false} RowFromFaultFrom(q: Query, title: string, row: Row, classHour: bool, idx: nat)
    requires Offset(q) <= idx
    ensures RowFrom(q, title, row, classHour, idx).Failure? <==> FaultFrom(q, row, idx)
    decreases |row| - idx
  {
    if idx < |row| {
      RowFromFaultFrom(q, title, row, classHour, idx + Stride);
    }
  }

  /** Among the columns congruent to `idx`, the one after `idx` is `idx + 3`. */
  lemma NextCongruent(idx: nat, c: nat)
    requires idx < c && c % Stride == idx % Stride
    ensures idx + Stride <= c && c % Stride == (idx + Stride) % Stride
  {
  }

  /** `FaultFrom` names exactly the faulty columns `idx, idx + 3, ...`. */
  lemma {:induction false} FaultFromExists(q: Query, row: Row, idx: nat)
    ensures FaultFrom(q, row, idx) <==>
      exists c: nat :: idx <= c < |row| && c % Stride == idx % Stride && IsFault(q, row, c)
    decreases |row| - idx
  {
    if idx < |row| {
      FaultFromExists(q, row, idx + Stride);
      if exists c: nat :: idx <= c < |row| && c % Stride == idx % Stride && IsFault(q, row, c) {
        var c: nat :| idx <= c < |row| && c % Stride == idx % Stride && IsFault(q, row, c);
        if c != idx {
          NextCongruent(idx, c);
        }
      }
      if FaultFrom(q, row, idx + Stride) {
        var c: nat :| idx + Stride <= c < |row| && c % Stride == (idx + Stride) % Stride && IsFault(q, row, c);
        assert c % Stride == idx % Stride;
      }
    }
  }

  /** The visited columns `idx, idx + 3, ...` of a row: the scan raises exactly
      when one of them is faulty, and then with the scan's exception. */
  lemma RowFromFails(q: Query, title: string, row: Row, classHour: bool, idx: nat)
    requires Offset(q) <= idx
    ensures RowFrom(q, title, row, classHour, idx).Failure? <==>
      exists c: nat :: idx <= c < |row| && c % Stride == idx % Stride && IsFault(q, row, c)
    ensures RowFrom(q, title, row, classHour, idx).Failure? ==>
      RowFrom(q, title, row, classHour, idx).error == FaultOf(q)
  {
    RowFromFaultFrom(q, title, row, classHour, idx);
    FaultFromExists(q, row, idx);
  }

  /** Slot `k` of `r` is the slot of column `h[k]`, a matching column that does
      not raise. */
  predicate Aligned(q: Query, title: string, row: Row, classHour: bool, h: seq<nat>, r: seq<Slot>) {
    |r| == |h| && forall k :: 0 <= k < |h| ==>
      Offset(q) <= h[k] < |row| && IsHit(q, row, h[k]) && !IsFault(q, row, h[k])
      && r[k] == SlotAt(q, title, row, h[k], classHour)
  }

  /** A matching column in front of aligned columns and slots. */
  lemma AlignedCons(q: Query, title: string, row: Row, classHour: bool, h: seq<nat>, r: seq<Slot>, idx: nat)
    requires Aligned(q, title, row, classHour, h, r)
    requires Offset(q) <= idx < |row| && IsHit(q, row, idx) && !IsFault(q, row, idx)
    ensures Aligned(q, title, row, classHour, [idx] + h, [SlotAt(q, title, row, idx, classHour)] + r)
  {
    var x := SlotAt(q, title, row, idx, classHour);
    forall k | 1 <= k < 1 + |h|
      ensures ([x] + r)[k] == r[k - 1] && ([idx] + h)[k] == h[k - 1]
    {
    }
  }

  /** The visited columns `idx, idx + 3, ...` of a row, when none is faulty: one
      slot per matching column, in column order. */
  lemma {:induction false} RowFromSlots(q: Query, title: string, row: Row, classHour: bool, idx: nat)
    requires Offset(q) <= idx
    requires RowFrom(q, title, row, classHour, idx).Ok?
    ensures Aligned(q, title, row, classHour, HitsFrom(q, row, idx), RowFrom(q, title, row, classHour, idx).value)
    decreases |row| - idx
  {
    if idx < |row| {
      var rest := RowFrom(q, title, row, classHour, idx + Stride);
      assert ColumnSlots(q, title, row, idx, classHour).Ok? && rest.Ok?;
      RowFromSlots(q, title, row, classHour, idx + Stride);
      var hr := HitsFrom(q, row, idx + Stride);
      if IsHit(q, row, idx) {
        AlignedCons(q, title, row, classHour, hr, rest.value, idx);
        assert HitsFrom(q, row, idx) == [idx] + hr;
        assert RowFrom(q, title, row, classHour, idx).value == [SlotAt(q, title, row, idx, classHour)] + rest.value;
      } else {
        assert HitsFrom(q, row, idx) == hr;
        assert RowFrom(q, title, row, classHour, idx).value == rest.value;
      }
    }
  }

  /** What `process_excel` / `process_excel2` take from one data row: the scan of
      the row raises exactly when a visited column (offset, offset + 3, ...) holds
      a faulty cell; otherwise it yields one slot per matching visited column, in
      ascending column order, each carrying the row's own class-hour flag. */
  lemma RowSlotsExact(q: Query, title: string, row: Row)
    ensures RowSlots(q, title, row).Failure? <==>
      exists idx: nat :: Offset(q) <= idx < |row| && idx % Stride == Offset(q) && IsFault(q, row, idx)
    ensures RowSlots(q, title, row).Failure? ==> RowSlots(q, title, row).error == FaultOf(q)
    ensures RowSlots(q, title, row).Ok? ==>
      var h := HitsFrom(q, row, Offset(q));
      var r := RowSlots(q, title, row).value;
      && (forall idx: nat :: idx in h <==> Offset(q) <= idx < |row| && idx % Stride == Offset(q) && IsHit(q, row, idx))
      && (forall a, b :: 0 <= a < b < |h| ==> h[a] < h[b])
      && |r| == |h|
      && forall k :: 0 <= k < |h| ==>
           Offset(q) <= h[k] < |row| && IsHit(q, row, h[k]) && !IsFault(q, row, h[k])
           && r[k] == SlotAt(q, title, row, h[k], HasClassHour(row))
  {
    RowFromFails(q, title, row, HasClassHour(row), Offset(q));
    if RowSlots(q, title, row).Ok? {
      RowFromSlots(q, title, row, HasClassHour(row), Offset(q));
    }
    HitsFromExact(q, row, Offset(q));
  }

  /** A group scan can only raise on a row whose last cell is the group and falls
      on a group column, i.e. a row of length 3k + 2, and then with `IndexError`. */
  lemma GroupFaultOnlyAtRowEnd(g: string, title: string, row: Row)
    ensures RowSlots(ByGroup(g), title, row).Failure? <==>
      |row| % Stride == 2 && row[|row| - 1] == Str(g)
    ensures RowSlots(ByGroup(g), title, row).Failure? ==> RowSlots(ByGroup(g), title, row).error == IndexError
  {
    RowSlotsExact(ByGroup(g), title, row);
    if |row| % Stride == 2 && row[|row| - 1] == Str(g) {
      assert IsFault(ByGroup(g), row, |row| - 1);
    }
  }

  /** The teacher guard: `None` and empty-string cells never match, whatever the
      key, and an empty key matches every non-empty string cell. */
  lemma TeacherMatchGuard(c: Cell, prefix: string)
    ensures (c == Empty || c == Str("")) ==> !TeacherCellMatches(c, prefix)
    ensures prefix == "" ==> (TeacherCellMatches(c, prefix) <==> c.Str? && c.s != "")
  {
  }

  /** The rows `i, i + 1, ...` of a sheet scan without an exception exactly
      when each of them does. */
  lemma {:induction false} RowsFromOk(q: Query, title: string, rows: seq<Row>, i: nat)
    requires i <= |rows|
    ensures RowsFrom(q, title, rows, i).Ok? <==> forall j :: i <= j < |rows| ==> RowSlots(q, title, rows[j]).Ok?
    decreases |rows| - i
  {
    if i < |rows| {
      RowsFromOk(q, title, rows, i + 1);
    }
  }

  /** Every data row of the sheet scans without an exception. */
  predicate SheetOk(q: Query, sheet: Sheet) {
    forall j :: 0 <= j < |DataRows(sheet)| ==> RowSlots(q, sheet.title, DataRows(sheet)[j]).Ok?
  }

  /** The sheets `s, s + 1, ...` of a workbook scan without an exception exactly
      when each of their data rows does. */
  lemma {:induction false} SheetsFromOk(q: Query, book: Book, s: nat)
    requires s <= |book|
    ensures SheetsFrom(q, book, s).Ok? <==> forall t :: s <= t < |book| ==> SheetOk(q, book[t])
    decreases |book| - s
  {
    if s < |book| {
      SheetsFromOk(q, book, s + 1);
      SheetSlotsOk(q, book[s]);
    }
  }

  /** A sheet scans without an exception exactly when each of its data rows does. */
  lemma SheetSlotsOk(q: Query, sheet: Sheet)
    ensures SheetSlots(q, sheet).Ok? <==> SheetOk(q, sheet)
  {
    RowsFromOk(q, sheet.title, DataRows(sheet), 0);
  }

  /** There is no early exit: a scan ends early only by an exception, it
      raises exactly when the scan of some data row of some sheet does, and the
      exception is the scan's own (`IndexError` for a group, `AttributeError`
      for a teacher). */
  lemma ScanOk(q: Query, book: Book)
    ensures Scan(q, book).Ok? <==> forall t :: 0 <= t < |book| ==> SheetOk(q, book[t])
    ensures Scan(q, book).Failure? ==> Scan(q, book).error == FaultOf(q)
  {
    SheetsFromOk(q, book, 0);
  }

  // ----- one step of the scanners -----

  /** Visiting a column that does not raise moves its slots from the work still
      to do to the results gathered so far; a column that raises ends the row
      with its exception. */
  lemma NextColumn(q: Query, title: string, row: Row, classHour: bool, idx: nat, done: seq<Slot>)
    requires Offset(q) <= idx < |row|
    ensures var step := ColumnSlots(q, title, row, idx, classHour);
      Append(Ok(done), RowFrom(q, title, row, classHour, idx))
      == if step.Ok? then Append(Ok(done + step.value), RowFrom(q, title, row, classHour, idx + Stride))
         else step
  {
    var step := ColumnSlots(q, title, row, idx, classHour);
    AppendAssoc(Ok(done), step, RowFrom(q, title, row, classHour, idx + Stride));
  }

  /** Scanning a row that does not raise moves its slots from the work still to
      do to the results gathered so far; a row that raises ends the sheet with
      its exception. */
  lemma NextRow(q: Query, title: string, rows: seq<Row>, i: nat, done: seq<Slot>)
    requires i < |rows|
    ensures var step := RowSlots(q, title, rows[i]);
      Append(Ok(done), RowsFrom(q, title, rows, i))
      == if step.Ok? then Append(Ok(done + step.value), RowsFrom(q, title, rows, i + 1))
         else step
  {
    AppendAssoc(Ok(done), RowSlots(q, title, rows[i]), RowsFrom(q, title, rows, i + 1));
  }

  /** Scanning a sheet that does not raise moves its slots from the work still
      to do to the results gathered so far; a sheet that raises ends the scan
      with its exception. */
  lemma NextSheet(q: Query, book: Book, s: nat, done: seq<Slot>)
    requires s < |book|
    ensures var step := SheetSlots(q, book[s]);
      Append(Ok(done), SheetsFrom(q, book, s))
      == if step.Ok? then Append(Ok(done + step.value), SheetsFrom(q, book, s + 1))
         else step
  {
    AppendAssoc(Ok(done), SheetSlots(q, book[s]), SheetsFrom(q, book, s + 1));
  }

  // ----- the scanners -----

  /** The inner loop of `process_excel`: the group columns 1, 4, 7, ... of one
      data row; a match in the last column raises `IndexError`. */
  method GroupRowScan(title: string, row: Row, groupName: string) returns (r: Result<seq<Slot>, Fault>)
    ensures r == RowSlots(ByGroup(groupName), title, row)
  {
    var q := ByGroup(groupName);
    var classHour := Str(ClassHour) in row;
    var results: seq<Slot> := [];
    var idx := 1;
    AppendEmpty(RowSlots(q, title, row));
    while idx < |row|
      invariant 1 <= idx
      invariant RowSlots(q, title, row) == Append(Ok(results), RowFrom(q, title, row, classHour, idx))
    {
      if row[idx] == Str(groupName) {
        if idx + 1 >= |row| {
          return Failure(IndexError);
        }
        var roomNumber := row[idx - 1];
        var teacherName := row[idx + 1];
        NextColumn(q, title, row, classHour, idx, results);
        results := results + [GroupSlot(title, roomNumber, teacherName, classHour)];
      } else {
        NextColumn(q, title, row, classHour, idx, results);
        assert results + [] == results;
      }
      idx := idx + Stride;
    }
    assert results + [] == results;
    r := Ok(results);
  }

  /** The inner loop of `process_excel2`: the teacher columns 2, 5, 8, ... of one
      data row; a truthy cell that is not a string raises `AttributeError`. */
  method TeacherRowScan(title: string, row: Row, teacherLastName: string) returns (r: Result<seq<Slot>, Fault>)
    ensures r == RowSlots(ByTeacher(teacherLastName), title, row)
  {
    var q := ByTeacher(teacherLastName);
    var classHour := Str(ClassHour) in row;
    var results: seq<Slot> := [];
    var idx := 2;
    AppendEmpty(RowSlots(q, title, row));
    while idx < |row|
      invariant 2 <= idx
      invariant RowSlots(q, title, row) == Append(Ok(results), RowFrom(q, title, row, classHour, idx))
    {
      var cell := row[idx];
      if Truthy(cell) {
        if !cell.Str? {
          return Failure(AttributeError);
        }
        if StartsWith(Lower(Strip(cell.s)), teacherLastName) {
          var roomNumber := row[idx - 2];
          var groupName := row[idx - 1];
          var fullTeacherName := cell.s;
          NextColumn(q, title, row, classHour, idx, results);
          results := results + [TeacherSlot(title, roomNumber, groupName, fullTeacherName, classHour)];
        } else {
          NextColumn(q, title, row, classHour, idx, results);
          assert results + [] == results;
        }
      } else {
        NextColumn(q, title, row, classHour, idx, results);
        assert results + [] == results;
      }
      idx := idx + Stride;
    }
    assert results + [] == results;
    r := Ok(results);
  }

  /** One data row, by the inner loop of the scan the query calls for. */
  method RowScan(q: Query, title: string, row: Row) returns (r: Result<seq<Slot>, Fault>)
    ensures r == RowSlots(q, title, row)
  {
    match q
    case ByGroup(g) =>
      r := GroupRowScan(title, row, g);
    case ByTeacher(key) =>
      r := TeacherRowScan(title, row, key);
  }

  /** The middle loop of both scanners: the data rows of one sheet, in order;
      the first exception ends the loop. */
  method SheetScan(q: Query, sheet: Sheet) returns (r: Result<seq<Slot>, Fault>)
    ensures r == SheetSlots(q, sheet)
  {
    var rows := DataRows(sheet);
    var results: seq<Slot> := [];
    var i := 0;
    AppendEmpty(SheetSlots(q, sheet));
    while i < |rows|
      invariant i <= |rows|
      invariant SheetSlots(q, sheet) == Append(Ok(results), RowsFrom(q, sheet.title, rows, i))
    {
      var found := RowScan(q, sheet.title, rows[i]);
      NextRow(q, sheet.title, rows, i, results);
      if found.Failure? {
        return found;
      }
      results := results + found.value;
      i := i + 1;
    }
    assert results + [] == results;
    r := Ok(results);
  }

  /** The outer loop of both scanners: the sheets of the workbook, in order;
      the first exception ends the loop. */
  method BookScan(q: Query, book: Book) returns (r: Result<seq<Slot>, Fault>)
    ensures r == Scan(q, book)
  {
    var results: seq<Slot> := [];
    var s := 0;
    AppendEmpty(Scan(q, book));
    while s < |book|
      invariant s <= |book|
      invariant Scan(q, book) == Append(Ok(results), SheetsFrom(q, book, s))
    {
      var found := SheetScan(q, book[s]);
      NextSheet(q, book, s, results);
      if found.Failure? {
        return found;
      }
      results := results + found.value;
      s := s + 1;
    }
    assert results + [] == results;
    r := Ok(results);
  }

  /** `process_excel`: every lesson of the group, scanned in sheet, row and
      column order; the first exception ends the scan. */
  method ProcessExcel(book: Book, groupName: string) returns (r: Result<seq<Slot>, Fault>)
    ensures r == Scan(ByGroup(groupName), book)
    ensures r.Ok? ==> forall x :: x in r.value ==> x.GroupSlot?
  {
    r := BookScan(ByGroup(groupName), book);
  }

  /** `process_excel2`: every lesson whose teacher cell starts with the key
      (both trimmed and lower-cased), scanned in sheet, row and column order;
      the first exception ends the scan. */
  method ProcessExcel2(book: Book, teacherName: string) returns (r: Result<seq<Slot>, Fault>)
    ensures r == Scan(TeacherQuery(teacherName), book)
    ensures r.Ok? ==> forall x :: x in r.value ==> x.TeacherSlot?
  {
    var teacherLastName := Lower(Strip(teacherName));
    r := BookScan(ByTeacher(teacherLastName), book);
  }
}
