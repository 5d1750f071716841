/** The comma-separated-values resource (`csv.py`): the columns it shows,
    the batched and sortable table view, the add and edit forms, and the
    three actions that change the table held by its handler. */
module CsvTable {
  import opened Common

  /** What the views ask of a column's datatype: whether it is exactly
      `IntegerKey`, its title, and whether it is an `Enumerate` or a
      `Boolean`. */
  datatype Datatype = Datatype(integerKey: bool, title: Option<string>, enumerate: bool, boolean: bool)

  /** `String`: the datatype of every column of a table without a schema. */
  const PlainString := Datatype(false, None, false, false)

  /** `handler.columns` together with `handler.schema`. */
  datatype Schema = Schema(columns: seq<string>, types: map<string, Datatype>)

  /** Every named column has a datatype (`handler.schema[name]` raises
      KeyError otherwise). */
  predicate WellFormed(schema: Option<Schema>)
  {
    schema.Some? ==> forall c :: c in schema.value.columns ==> c in schema.value.types
  }

  /** One line of the table, its cells as text. */
  type Row = seq<string>

  // ---------------------------------------------------------------------
  // get_columns
  // ---------------------------------------------------------------------

  /** The title shown for a column: its datatype's title, translated, or
      the column's own name when the datatype has none. */
  function Title(d: Datatype, name: string, gettext: string -> string): string
  {
    match d.title
    case None => name
    case Some(t) => gettext(t)
  }

  /** The schema's columns, in order, without the `IntegerKey` ones. */
  function SchemaColumns(cs: seq<string>, types: map<string, Datatype>, gettext: string -> string): seq<(string, string)>
    requires forall c :: c in cs ==> c in types
  {
    if |cs| == 0 then []
    else
      var name := cs[|cs| - 1];
      SchemaColumns(cs[..|cs| - 1], types, gettext)
      + (if types[name].integerKey then [] else [(name, Title(types[name], name, gettext))])
  }

  /** `get_columns`: (name, title) for every column shown. Without a
      schema the columns are numbered after the first line. */
  function GetColumns(schema: Option<Schema>, lines: seq<Row>, gettext: string -> string): seq<(string, string)>
    requires WellFormed(schema)
  {
    match schema
    case None =>
      if |lines| > 0 then seq(|lines[0]|, i requires 0 <= i => (NatToString(i), NatToString(i))) else []
    case Some(s) => SchemaColumns(s.columns, s.types, gettext)
  }

  function Names(cols: seq<(string, string)>): seq<string>
  {
    seq(|cols|, k requires 0 <= k < |cols| => cols[k].0)
  }

  /** The columns a schema shows: those that are not `IntegerKey`. */
  function Shown(types: map<string, Datatype>): string -> bool
  {
    c => c !in types || !types[c].integerKey
  }

  /** Without a schema, one column per cell of the first line, named and
      titled by its position, and none when the table is empty; the name
      reads back as that position. */
  lemma GetColumnsPlain(lines: seq<Row>, gettext: string -> string)
    ensures var r := GetColumns(None, lines, gettext);
      && |r| == (if |lines| > 0 then |lines[0]| else 0)
      && forall i :: 0 <= i < |r| ==> r[i].0 == r[i].1 && ParseNat(r[i].0) == Some(i)
  {
    var r := GetColumns(None, lines, gettext);
    forall i | 0 <= i < |r|
      ensures r[i].0 == r[i].1 && ParseNat(r[i].0) == Some(i)
    {
      ParseNatToString(i);
    }
  }

  /** With a schema, the columns shown are the schema's columns in order
      with the `IntegerKey` ones left out, each titled by its datatype's
      title or else by its name. */
  lemma {:induction false} SchemaColumnsFacts(cs: seq<string>, types: map<string, Datatype>, gettext: string -> string)
    requires forall c :: c in cs ==> c in types
    ensures Names(SchemaColumns(cs, types, gettext)) == Filter(cs, Shown(types))
    ensures forall k :: 0 <= k < |SchemaColumns(cs, types, gettext)| ==>
      var (name, title) := SchemaColumns(cs, types, gettext)[k];
      name in types && title == Title(types[name], name, gettext)
  {
    if |cs| > 0 {
      var init, name := cs[..|cs| - 1], cs[|cs| - 1];
      assert cs == init + [name];
      SchemaColumnsFacts(init, types, gettext);
      FilterSnoc(init, name, Shown(types));
    }
  }

  // ---------------------------------------------------------------------
  // Reading and writing one cell
  // ---------------------------------------------------------------------

  /** The first position of x in s. */
  function IndexOf(s: seq<string>, x: string): (r: Option<nat>)
    ensures r.Some? <==> x in s
    ensures r.Some? ==> r.value < |s| && s[r.value] == x && x !in s[..r.value]
  {
    if |s| == 0 then None
    else if s[0] == x then Some(0)
    else
      match IndexOf(s[1..], x)
      case None => None
      case Some(k) =>
        assert s[..k + 1] == [s[0]] + s[1..][..k];
        Some(k + 1)
  }

  /** Where a row keeps column `name`: `int(name)` without a schema, the
      name's place in `handler.columns` with one (`row.get_value`). None
      where Python raises ValueError. */
  function Position(schema: Option<Schema>, name: string): Option<nat>
  {
    match schema
    case None => ParseNat(name)
    case Some(s) => IndexOf(s.columns, name)
  }

  /** The cell of column `name`, or None where reading it raises. */
  function Cell(schema: Option<Schema>, row: Row, name: string): (r: Option<string>)
  {
    match Position(schema, name)
    case Some(p) => if p < |row| then Some(row[p]) else None
    case None => None
  }

  /** `handler.get_datatype(name)`. */
  function DatatypeOf(schema: Option<Schema>, name: string): Datatype
  {
    match schema
    case None => PlainString
    case Some(s) => if name in s.types then s.types[name] else PlainString
  }

  /** Two columns that are shown share a position only when they are the
      same column, so writing one cell never overwrites another. */
  lemma PositionsDistinct(schema: Option<Schema>, lines: seq<Row>, gettext: string -> string, a: string, b: string)
    requires WellFormed(schema)
    requires a in Names(GetColumns(schema, lines, gettext)) && b in Names(GetColumns(schema, lines, gettext))
    requires Position(schema, a).Some? && Position(schema, a) == Position(schema, b)
    ensures a == b
  {
    var cols := GetColumns(schema, lines, gettext);
    match schema
    case None =>
      GetColumnsPlain(lines, gettext);
      var i :| 0 <= i < |cols| && cols[i].0 == a;
      var j :| 0 <= j < |cols| && cols[j].0 == b;
      assert Names(cols)[i] == a && Names(cols)[j] == b;
    case Some(s) =>
  }

  // ---------------------------------------------------------------------
  // view: the batch
  // ---------------------------------------------------------------------

  const BatchSize := 50

  /** One row of the table as the view shows it: its id, its index (which
      links to the edit form) and the value of every column. */
  datatype ViewRow = ViewRow(id: string, index: int, cells: map<string, string>)

  /** What the view shows of a cell: an enumerate's title for its value
      (`datatype.get_value`), otherwise the value itself. */
  function Display(schema: Option<Schema>, name: string, v: string, enumTitle: (string, string) -> string): string
  {
    if DatatypeOf(schema, name).enumerate then enumTitle(name, v) else v
  }

  /** Every column can be read from the row. */
  predicate Readable(schema: Option<Schema>, cols: seq<(string, string)>, row: Row)
  {
    forall k :: 0 <= k < |cols| ==> Cell(schema, row, cols[k].0).Some?
  }

  /** The cells of one row for the given columns, None when one of them
      cannot be read. */
  function RowCells(schema: Option<Schema>, cols: seq<(string, string)>, row: Row,
                    enumTitle: (string, string) -> string): Option<map<string, string>>
  {
    if |cols| == 0 then Some(map[])
    else
      var name := cols[|cols| - 1].0;
      match RowCells(schema, cols[..|cols| - 1], row, enumTitle)
      case None => None
      case Some(m) =>
        match Cell(schema, row, name)
        case None => None
        case Some(v) => Some(m[name := Display(schema, name, v, enumTitle)])
  }

  /** A row's cells exist exactly when every column can be read. */
  lemma {:induction false} RowCellsSome(schema: Option<Schema>, cols: seq<(string, string)>, row: Row,
                                        enumTitle: (string, string) -> string)
    ensures RowCells(schema, cols, row, enumTitle).Some? <==> Readable(schema, cols, row)
  {
    if |cols| > 0 {
      var init := cols[..|cols| - 1];
      RowCellsSome(schema, init, row, enumTitle);
      assert forall k :: 0 <= k < |init| ==> init[k] == cols[k];
    }
  }

  /** The cells hold every column, and nothing else. */
  lemma {:induction false} RowCellsKeys(schema: Option<Schema>, cols: seq<(string, string)>, row: Row,
                                        enumTitle: (string, string) -> string)
    requires RowCells(schema, cols, row, enumTitle).Some?
    ensures forall n :: n in RowCells(schema, cols, row, enumTitle).value <==> n in Names(cols)
  {
    if |cols| > 0 {
      var init := cols[..|cols| - 1];
      RowCellsKeys(schema, init, row, enumTitle);
      assert Names(cols) == Names(init) + [cols[|cols| - 1].0];
    }
  }

  /** Each column's cell holds its value as displayed. */
  lemma {:induction false} RowCellsValues(schema: Option<Schema>, cols: seq<(string, string)>, row: Row,
                                          enumTitle: (string, string) -> string)
    requires RowCells(schema, cols, row, enumTitle).Some?
    ensures forall k :: 0 <= k < |cols| ==> Cell(schema, row, cols[k].0).Some?
    ensures var m := RowCells(schema, cols, row, enumTitle).value;
      forall k :: 0 <= k < |cols| ==>
        (cols[k].0 in m && m[cols[k].0] == Display(schema, cols[k].0, Cell(schema, row, cols[k].0).value, enumTitle))
  {
    if |cols| > 0 {
      var init := cols[..|cols| - 1];
      RowCellsValues(schema, init, row, enumTitle);
      assert forall k :: 0 <= k < |init| ==> init[k] == cols[k];
    }
  }

  /** The rows of the batch `w`, the first numbered `start`: what the
      view's loop builds, or None when a cell cannot be read. */
  function BatchRows(schema: Option<Schema>, cols: seq<(string, string)>, w: seq<Row>, start: int,
                     enumTitle: (string, string) -> string): Option<seq<ViewRow>>
  {
    if forall k :: 0 <= k < |w| ==> RowCells(schema, cols, w[k], enumTitle).Some? then
      Some(seq(|w|, k requires 0 <= k < |w| =>
        ViewRow(IntToString(start + k), start + k, RowCells(schema, cols, w[k], enumTitle).value)))
    else None
  }

  /** `lines[start:start+size]`. */
  function Batch(lines: seq<Row>, start: int): seq<Row>
  {
    PySlice(lines, start, start + BatchSize)
  }

  /** acc holds the first |acc| rows of the batch, numbered from start. */
  predicate Numbered(schema: Option<Schema>, cols: seq<(string, string)>, w: seq<Row>, start: int,
                     enumTitle: (string, string) -> string, acc: seq<ViewRow>)
  {
    |acc| <= |w| &&
    forall k :: 0 <= k < |acc| ==>
      RowCells(schema, cols, w[k], enumTitle).Some? &&
      acc[k] == ViewRow(IntToString(start + k), start + k, RowCells(schema, cols, w[k], enumTitle).value)
  }

  /** The loop of `view` over the batch `w`: one row per line, numbered
      from `start`. */
  method NumberRows(schema: Option<Schema>, cols: seq<(string, string)>, w: seq<Row>, start: int,
                    enumTitle: (string, string) -> string)
    returns (rows: Option<seq<ViewRow>>)
    ensures rows == BatchRows(schema, cols, w, start, enumTitle)
  {
    var acc: seq<ViewRow> := [];
    var index := start;
    while |acc| < |w|
      invariant Numbered(schema, cols, w, start, enumTitle, acc)
      invariant index == start + |acc|
      decreases |w| - |acc|
    {
      var cells := RowCells(schema, cols, w[|acc|], enumTitle);
      if cells.None? {
        BatchRowsFails(schema, cols, w, start, enumTitle, |acc|);
        return None;
      }
      NumberedExtend(schema, cols, w, start, enumTitle, acc);
      acc := acc + [ViewRow(IntToString(index), index, cells.value)];
      index := index + 1;
    }
    BatchRowsAre(schema, cols, w, start, enumTitle, acc);
    return Some(acc);
  }

  lemma NumberedExtend(schema: Option<Schema>, cols: seq<(string, string)>, w: seq<Row>, start: int,
                       enumTitle: (string, string) -> string, acc: seq<ViewRow>)
    requires Numbered(schema, cols, w, start, enumTitle, acc)
    requires |acc| < |w| && RowCells(schema, cols, w[|acc|], enumTitle).Some?
    ensures var i := |acc|;
      Numbered(schema, cols, w, start, enumTitle,
               acc + [ViewRow(IntToString(start + i), start + i, RowCells(schema, cols, w[i], enumTitle).value)])
  {
  }

  lemma BatchRowsFails(schema: Option<Schema>, cols: seq<(string, string)>, w: seq<Row>, start: int,
                       enumTitle: (string, string) -> string, i: int)
    requires 0 <= i < |w| && RowCells(schema, cols, w[i], enumTitle).None?
    ensures BatchRows(schema, cols, w, start, enumTitle).None?
  {
  }

  lemma BatchRowsAre(schema: Option<Schema>, cols: seq<(string, string)>, w: seq<Row>, start: int,
                     enumTitle: (string, string) -> string, acc: seq<ViewRow>)
    requires Numbered(schema, cols, w, start, enumTitle, acc) && |acc| == |w|
    ensures BatchRows(schema, cols, w, start, enumTitle) == Some(acc)
  {
    var s := seq(|w|, k requires 0 <= k < |w| =>
      ViewRow(IntToString(start + k), start + k, RowCells(schema, cols, w[k], enumTitle).value));
    assert BatchRows(schema, cols, w, start, enumTitle) == Some(s);
    assert forall k :: 0 <= k < |w| ==> s[k] == acc[k];
    assert s == acc;
  }

  /** The batch holds at most 50 rows; from a start that is not negative
      its k-th row is line `start + k`, shown with id `str(start + k)`. */
  lemma BatchFacts(schema: Option<Schema>, cols: seq<(string, string)>, lines: seq<Row>, start: int,
                   enumTitle: (string, string) -> string)
    ensures |Batch(lines, start)| <= BatchSize
    ensures 0 <= start ==> forall k :: 0 <= k < |Batch(lines, start)| ==>
      start + k < |lines| && Batch(lines, start)[k] == lines[start + k]
    ensures var u := BatchRows(schema, cols, Batch(lines, start), start, enumTitle);
      u.Some? ==> (|u.value| == |Batch(lines, start)| &&
        forall k :: 0 <= k < |u.value| ==> u.value[k].id == IntToString(start + k) && u.value[k].index == start + k)
  {
    PySliceAtMost(lines, start, BatchSize);
    forall k | 0 <= start && 0 <= k < |Batch(lines, start)|
      ensures start + k < |lines| && Batch(lines, start)[k] == lines[start + k]
    {
      PySliceAt(lines, start, start + BatchSize, k);
    }
  }

  /** Rows that are numbered apart get distinct ids. */
  lemma IdsDistinct(a: int, b: int)
    requires IntToString(a) == IntToString(b)
    ensures a == b
  {
    ParseIntToString(a);
    ParseIntToString(b);
  }

  // ---------------------------------------------------------------------
  // view: sorting
  // ---------------------------------------------------------------------

  /** The key `itemgetter(sortby)` takes from a row: a column's value, the
      id, or the index (the `(index, link)` pair orders as its index, since
      the link is made from it); 'checkbox' is True for every row. */
  datatype Key = Text(s: string) | Number(n: int) | Same

  predicate HasKey(row: ViewRow, key: string)
  {
    key in row.cells || key == "id" || key == "checkbox" || key == "index"
  }

  /** A column named like one of the fixed keys replaces it, since the
      columns are written into the row last. */
  function KeyOf(row: ViewRow, key: string): Key
  {
    if key in row.cells then Text(row.cells[key])
    else if key == "id" then Text(row.id)
    else if key == "index" then Number(row.index)
    else Same
  }

  function Rank(k: Key): nat
  {
    match k
    case Text(_) => 0
    case Number(_) => 1
    case Same => 2
  }

  /** The order Python gives the keys (keys of different kinds never meet
      in one table: every row has the same columns). */
  predicate KeyLe(a: Key, b: Key)
  {
    if Rank(a) != Rank(b) then Rank(a) < Rank(b)
    else match a
      case Text(s) => LexLe(s, b.s)
      case Number(n) => n <= b.n
      case Same => true
  }

  function RowLe(key: string): (ViewRow, ViewRow) -> bool
  {
    (a: ViewRow, b: ViewRow) => KeyLe(KeyOf(a, key), KeyOf(b, key))
  }

  /** `reverse=(sortorder == 'down')`, 'up' when no order is given. */
  function Order(key: string, sortOrder: Option<string>): (ViewRow, ViewRow) -> bool
  {
    if sortOrder.GetOr("up") == "down" then Flip(RowLe(key)) else RowLe(key)
  }

  lemma RowLeOrder(key: string)
    ensures Total(RowLe(key)) && Transitive(RowLe(key))
  {
    forall a: ViewRow, b: ViewRow
      ensures RowLe(key)(a, b) || RowLe(key)(b, a)
    {
      var ka, kb := KeyOf(a, key), KeyOf(b, key);
      if ka.Text? && kb.Text? {
        LexLeTotal(ka.s, kb.s);
      }
    }
    forall a: ViewRow, b: ViewRow, c: ViewRow | RowLe(key)(a, b) && RowLe(key)(b, c)
      ensures RowLe(key)(a, c)
    {
      var ka, kb, kc := KeyOf(a, key), KeyOf(b, key), KeyOf(c, key);
      if ka.Text? && kb.Text? && kc.Text? {
        LexLeTransitive(ka.s, kb.s, kc.s);
      }
    }
  }

  /** The sorting step: nothing when `sortby` is empty, KeyError when a
      row has no such key, otherwise the stable sort by that key. */
  function Arrange(rows: seq<ViewRow>, sortBy: Option<string>, sortOrder: Option<string>): Option<seq<ViewRow>>
  {
    if sortBy.None? || sortBy.value == "" then Some(rows)
    else if exists k :: 0 <= k < |rows| && !HasKey(rows[k], sortBy.value) then None
    else Some(SortBy(rows, Order(sortBy.value, sortOrder)))
  }

  /** Sorting fails exactly when a row lacks the key asked for. */
  lemma ArrangeFails(rows: seq<ViewRow>, sortBy: Option<string>, sortOrder: Option<string>)
    ensures Arrange(rows, sortBy, sortOrder).None? <==>
      sortBy.Some? && sortBy.value != "" && exists k :: 0 <= k < |rows| && !HasKey(rows[k], sortBy.value)
  {
  }

  /** Sorting keeps the rows, and keeps their order when no key is asked
      for. */
  lemma ArrangeKeeps(rows: seq<ViewRow>, sortBy: Option<string>, sortOrder: Option<string>)
    ensures var r := Arrange(rows, sortBy, sortOrder);
      && (r.Some? ==> multiset(r.value) == multiset(rows))
      && (r.Some? && (sortBy.None? || sortBy.value == "") ==> r.value == rows)
  {
  }

  /** When asked for, the rows come out ordered by the key, descending
      exactly when the order is 'down'. */
  lemma ArrangeSorted(rows: seq<ViewRow>, key: string, sortOrder: Option<string>)
    requires key != ""
    ensures var r := Arrange(rows, Some(key), sortOrder);
      r.Some? ==>
        if sortOrder == Some("down") then SortedBy(r.value, Flip(RowLe(key)))
        else SortedBy(r.value, RowLe(key))
  {
    RowLeOrder(key);
    if sortOrder == Some("down") {
      FlipTotalPreorder(RowLe(key));
      SortBySorted(rows, Flip(RowLe(key)));
    } else {
      assert Order(key, sortOrder) == RowLe(key);
      SortBySorted(rows, RowLe(key));
    }
  }

  // ---------------------------------------------------------------------
  // The forms
  // ---------------------------------------------------------------------

  /** One field of the add or edit form: which widget it is and, in the
      edit form, the row's current value for it. */
  datatype FormColumn = FormColumn(name: string, title: string, isEnumerate: bool, isBoolean: bool,
                                   isInput: bool, value: Option<string>)

  /** The widget of a column: a selection box for an `Enumerate`, else a
      checkbox for a `Boolean`, else a text input. */
  function Widget(name: string, title: string, d: Datatype, value: Option<string>): FormColumn
  {
    if d.enumerate then FormColumn(name, title, true, false, false, value)
    else if d.boolean then FormColumn(name, title, false, true, false, value)
    else FormColumn(name, title, false, false, true, value)
  }

  /** Each field is exactly one of the three widgets, enumerate before
      boolean before input. */
  lemma WidgetExactlyOne(name: string, title: string, d: Datatype, value: Option<string>)
    ensures var f := Widget(name, title, d, value);
      && (f.isEnumerate <==> d.enumerate)
      && (f.isBoolean <==> !d.enumerate && d.boolean)
      && (f.isInput <==> !d.enumerate && !d.boolean)
      && (if f.isEnumerate then 1 else 0) + (if f.isBoolean then 1 else 0) + (if f.isInput then 1 else 0) == 1
  {
  }

  /** `add_row_form`: one empty field per column. */
  function AddRowForm(schema: Option<Schema>, lines: seq<Row>, gettext: string -> string): seq<FormColumn>
    requires WellFormed(schema)
  {
    var cols := GetColumns(schema, lines, gettext);
    seq(|cols|, k requires 0 <= k < |cols| => Widget(cols[k].0, cols[k].1, DatatypeOf(schema, cols[k].0), None))
  }

  /** `edit_row_form`: one field per column holding the row's value; None
      where fetching the row or one of its cells raises. */
  function EditRowForm(schema: Option<Schema>, lines: seq<Row>, index: int, gettext: string -> string): Option<seq<FormColumn>>
    requires WellFormed(schema)
  {
    var cols := GetColumns(schema, lines, gettext);
    match PyAt(lines, index)
    case None => None
    case Some(row) =>
      if forall k :: 0 <= k < |cols| ==> Cell(schema, row, cols[k].0).Some? then
        Some(seq(|cols|, k requires 0 <= k < |cols| =>
          Widget(cols[k].0, cols[k].1, DatatypeOf(schema, cols[k].0), Cell(schema, row, cols[k].0))))
      else None
  }

  /** Both forms show the same fields with the same widgets; the edit
      form differs only in carrying the row's values. */
  lemma FormsAgree(schema: Option<Schema>, lines: seq<Row>, index: int, gettext: string -> string)
    requires WellFormed(schema)
    ensures var add, edit := AddRowForm(schema, lines, gettext), EditRowForm(schema, lines, index, gettext);
      && |add| == |GetColumns(schema, lines, gettext)|
      && (forall k :: 0 <= k < |add| ==> add[k].value.None?)
      && (edit.Some? ==> (|edit.value| == |add| &&
            forall k :: 0 <= k < |add| ==> edit.value[k].(value := None) == add[k] && edit.value[k].value.Some?))
      && (edit.Some? <==>
            PyAt(lines, index).Some? &&
            forall k :: 0 <= k < |add| ==> Cell(schema, PyAt(lines, index).value, GetColumns(schema, lines, gettext)[k].0).Some?)
      && (edit.Some? ==> forall k :: 0 <= k < |add| ==>
            edit.value[k].value == Cell(schema, PyAt(lines, index).value, GetColumns(schema, lines, gettext)[k].0))
  {
  }

  // ---------------------------------------------------------------------
  // The handler and the views that act on it
  // ---------------------------------------------------------------------

  datatype Message = RowDeleted | RowAdded | ChangesSaved

  /** What an action answers: `come_back` with a message, or the
      exception (IndexError, ValueError) that cut it short. */
  datatype Outcome = ComeBack(message: Message) | Raised

  /** `lines` without the rows numbered in `ids`, the others in order. */
  function DeleteRows(lines: seq<Row>, ids: seq<int>): seq<Row>
  {
    if |lines| == 0 then []
    else DeleteRows(lines[..|lines| - 1], ids) + (if |lines| - 1 in ids then [] else [lines[|lines| - 1]])
  }

  /** Deletion only takes rows away. */
  lemma {:induction false} DeleteRowsSub(lines: seq<Row>, ids: seq<int>)
    ensures |DeleteRows(lines, ids)| <= |lines|
    ensures multiset(DeleteRows(lines, ids)) <= multiset(lines)
  {
    if |lines| > 0 {
      var init := lines[..|lines| - 1];
      DeleteRowsSub(init, ids);
      assert lines == init + [lines[|lines| - 1]];
    }
  }

  /** Every row whose number was not asked for survives. */
  lemma {:induction false} DeleteRowsKeeps(lines: seq<Row>, ids: seq<int>)
    ensures forall k :: 0 <= k < |lines| && k !in ids ==> lines[k] in DeleteRows(lines, ids)
  {
    if |lines| > 0 {
      var init := lines[..|lines| - 1];
      DeleteRowsKeeps(init, ids);
      forall k | 0 <= k < |lines| - 1 && k !in ids
        ensures lines[k] in DeleteRows(lines, ids)
      {
        assert lines[k] == init[k];
      }
    }
  }

  /** The numbers of the rows that survive a deletion, in increasing
      order: every row number below `n` not asked for, and no other. */
  function Survivors(n: nat, ids: seq<int>): (r: seq<nat>)
    ensures forall j :: 0 <= j < |r| ==> r[j] < n && r[j] !in ids
    ensures forall i, j :: 0 <= i < j < |r| ==> r[i] < r[j]
    ensures forall k :: 0 <= k < n && k !in ids ==> k in r
  {
    if n == 0 then [] else Survivors(n - 1, ids) + (if n - 1 in ids then [] else [n - 1])
  }

  /** Deletion keeps exactly the rows whose number was not asked for, in
      their order: the j-th row left is the row numbered by the j-th
      survivor. */
  lemma {:induction false} DeleteRowsExact(lines: seq<Row>, ids: seq<int>)
    ensures var d, s := DeleteRows(lines, ids), Survivors(|lines|, ids);
      |d| == |s| && forall j :: 0 <= j < |d| ==> d[j] == lines[s[j]]
  {
    if |lines| > 0 {
      var n := |lines| - 1;
      var init := lines[..n];
      DeleteRowsExact(init, ids);
      var d0, s0 := DeleteRows(init, ids), Survivors(n, ids);
      var d, s := DeleteRows(lines, ids), Survivors(|lines|, ids);
      var tail := if n in ids then [] else [n];
      assert d == d0 + (if n in ids then [] else [lines[n]]);
      assert s == s0 + tail;
      forall j | 0 <= j < |d|
        ensures d[j] == lines[s[j]]
      {
        if j < |d0| {
          assert d[j] == d0[j] == init[s0[j]];
        }
      }
    }
  }

  /** Asking for no existing row deletes nothing. */
  lemma {:induction false} DeleteRowsNone(lines: seq<Row>, ids: seq<int>)
    requires forall i :: 0 <= i < |lines| ==> i !in ids
    ensures DeleteRows(lines, ids) == lines
  {
    if |lines| > 0 {
      var init := lines[..|lines| - 1];
      DeleteRowsNone(init, ids);
      assert lines == init + [lines[|lines| - 1]];
    }
  }

  /** Columns that share a position are the same column. */
  predicate DistinctPositions(schema: Option<Schema>, cols: seq<(string, string)>)
  {
    forall j, k ::
      (0 <= j < |cols| && 0 <= k < |cols| && Position(schema, cols[j].0).Some? &&
       Position(schema, cols[j].0) == Position(schema, cols[k].0)) ==> cols[j].0 == cols[k].0
  }

  lemma ColumnPositionsDistinct(schema: Option<Schema>, lines: seq<Row>, gettext: string -> string)
    requires WellFormed(schema)
    ensures DistinctPositions(schema, GetColumns(schema, lines, gettext))
  {
    var cols := GetColumns(schema, lines, gettext);
    forall j, k | 0 <= j < |cols| && 0 <= k < |cols| && Position(schema, cols[j].0).Some? &&
      Position(schema, cols[j].0) == Position(schema, cols[k].0)
      ensures cols[j].0 == cols[k].0
    {
      assert Names(cols)[j] == cols[j].0 && Names(cols)[k] == cols[k].0;
      PositionsDistinct(schema, lines, gettext, cols[j].0, cols[k].0);
    }
  }

  /** `after` is `before` with some cells overwritten by the form's value
      for the column kept there, and no cell added or removed. */
  predicate WrittenFrom(schema: Option<Schema>, cols: seq<(string, string)>, before: Row, after: Row, form: string -> string)
  {
    && |after| == |before|
    && forall p :: 0 <= p < |after| ==>
         after[p] == before[p] || exists k :: 0 <= k < |cols| && Position(schema, cols[k].0) == Some(p) && after[p] == form(cols[k].0)
  }

  /** Every column of the row holds the form's value for it. */
  predicate AllWritten(schema: Option<Schema>, cols: seq<(string, string)>, row: Row, form: string -> string)
  {
    forall k :: 0 <= k < |cols| ==> Cell(schema, row, cols[k].0) == Some(form(cols[k].0))
  }

  /** The loop of `edit_row`: `row.set_value(name, value)` column by
      column; it stops (the caller raises) at the first column the row
      has no cell for. */
  method SetValues(schema: Option<Schema>, cols: seq<(string, string)>, row: Row, form: string -> string)
    returns (ok: bool, out: Row)
    requires DistinctPositions(schema, cols)
    ensures ok <==> Readable(schema, cols, row)
    ensures WrittenFrom(schema, cols, row, out, form)
    ensures ok ==> AllWritten(schema, cols, out, form)
  {
    out := row;
    var i := 0;
    while i < |cols|
      invariant 0 <= i <= |cols|
      invariant WrittenFrom(schema, cols, row, out, form)
      invariant forall k :: 0 <= k < i ==> Cell(schema, row, cols[k].0).Some?
      invariant forall k :: 0 <= k < i ==> Cell(schema, out, cols[k].0) == Some(form(cols[k].0))
    {
      var name := cols[i].0;
      var at := Position(schema, name);
      if at.None? || at.value >= |out| {
        return false, out;
      }
      out := out[at.value := form(name)];
      i := i + 1;
    }
    return true, out;
  }

  /** The CSV handler: its lines, its schema (None for a plain file) and
      whether it has changes to save. */
  class CsvHandler {
    var lines: seq<Row>
    var schema: Option<Schema>
    var changed: bool

    constructor (lines: seq<Row>, schema: Option<Schema>)
      ensures this.lines == lines && this.schema == schema && !changed
    {
      this.lines := lines;
      this.schema := schema;
      changed := false;
    }

    predicate Valid()
      reads this
    {
      WellFormed(schema)
    }

    /** `view`: the columns (after the index column), the delete action
        when there is something to delete and the user may edit, and the
        batch's rows in the order asked for; None where it raises. */
    method View(start: int, sortBy: Option<string>, sortOrder: Option<string>, mayEdit: bool,
                gettext: string -> string, enumTitle: (string, string) -> string)
      returns (columns: seq<(string, string)>, deleteOffered: bool, rows: Option<seq<ViewRow>>)
      requires Valid()
      ensures deleteOffered <==> |lines| > 0 && mayEdit
      ensures columns == [("index", "")] + GetColumns(schema, lines, gettext)
      ensures rows == match BatchRows(schema, columns[1..], Batch(lines, start), start, enumTitle)
                      case None => None
                      case Some(u) => Arrange(u, sortBy, sortOrder)
    {
      deleteOffered := |lines| > 0 && mayEdit;
      columns := [("index", "")] + GetColumns(schema, lines, gettext);
      var batch := NumberRows(schema, columns[1..], Batch(lines, start), start, enumTitle);
      if batch.None? {
        return columns, deleteOffered, None;
      }
      rows := Arrange(batch.value, sortBy, sortOrder);
    }

    /** `add_row_action`: one value per column, in column order, from the
        form; the handler appends it as one new row. */
    method AddRowAction(form: string -> string, gettext: string -> string) returns (r: Outcome)
      requires Valid()
      modifies this
      ensures r == ComeBack(RowAdded)
      ensures schema == old(schema) && changed
      ensures var cols := old(GetColumns(schema, lines, gettext));
        lines == old(lines) + [seq(|cols|, k requires 0 <= k < |cols| => form(cols[k].0))]
    {
      var cols := GetColumns(schema, lines, gettext);
      var row: Row := [];
      var i := 0;
      while i < |cols|
        invariant 0 <= i <= |cols| && |row| == i
        invariant forall k :: 0 <= k < i ==> row[k] == form(cols[k].0)
      {
        row := row + [form(cols[i].0)];
        i := i + 1;
      }
      assert row == seq(|cols|, k requires 0 <= k < |cols| => form(cols[k].0));
      lines := lines + [row];
      changed := true;
      return ComeBack(RowAdded);
    }

    /** `del_row_action`: the handler deletes the rows numbered in `ids`. */
    method DelRowAction(ids: seq<int>) returns (r: Outcome)
      modifies this
      ensures r == ComeBack(RowDeleted)
      ensures schema == old(schema) && changed
      ensures lines == DeleteRows(old(lines), ids)
    {
      lines := DeleteRows(lines, ids);
      changed := true;
      return ComeBack(RowDeleted);
    }

    /** `edit_row`: writes the form's value into every column of the row
        at `index`, then marks the handler changed. Where the row or one of
        its cells does not exist it raises: the row object was changed in
        place, so the cells written so far stay written, and nothing is
        marked. No other row changes. */
    method EditRow(index: int, form: string -> string, gettext: string -> string) returns (r: Outcome)
      requires Valid()
      modifies this
      ensures schema == old(schema) && |lines| == |old(lines)|
      ensures r.Raised? <==> (PyAt(old(lines), index).None? ||
        !Readable(schema, old(GetColumns(schema, lines, gettext)), PyAt(old(lines), index).value))
      ensures r.Raised? ==> changed == old(changed)
      ensures r.ComeBack? ==> r.message == ChangesSaved && changed
      ensures PyAt(old(lines), index).None? ==> lines == old(lines)
      ensures PyAt(old(lines), index).Some? ==>
        var pos := if index < 0 then |lines| + index else index;
        var cols := old(GetColumns(schema, lines, gettext));
        && 0 <= pos < |lines|
        && (forall j :: 0 <= j < |lines| && j != pos ==> lines[j] == old(lines[j]))
        && WrittenFrom(schema, cols, old(lines[pos]), lines[pos], form)
        && (r.ComeBack? ==> AllWritten(schema, cols, lines[pos], form))
    {
      var cols := GetColumns(schema, lines, gettext);
      var found := PyAt(lines, index);
      if found.None? {
        return Raised;
      }
      var pos := if index < 0 then |lines| + index else index;
      ColumnPositionsDistinct(schema, lines, gettext);
      var ok, row := SetValues(schema, cols, lines[pos], form);
      lines := lines[pos := row];
      if !ok {
        return Raised;
      }
      changed := true;
      return ComeBack(ChangesSaved);
    }
  }
}
