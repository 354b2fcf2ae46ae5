/** What is exported comes back when the sheet is imported: which values do, and that then all of them do. */
module RoundTrip {
  import opened Wrappers
  import opened Text
  import opened Values
  import opened Normalizer
  import opened Store
  import opened Ownership
  import opened StoreRuns
  import opened Sheets
  import opened Import
  import opened Export

  /** What the export and import rely on of the library: the lower case of fixed words, and of what is lower case. */
  ghost predicate LibraryOk(fmt: Formats) {
    && LowersOnce(fmt)
    && fmt.lower("true") == "true" && fmt.lower("false") == "false"
    && fmt.lower("email") == "email" && fmt.lower("participantUuid") == "participantuuid"
  }

  // One value

  /** Neither a block nor a file. */
  predicate Plain(kind: AttributeType) {
    !kind.BlockType? && !FileLike(kind)
  }

  /** Text without white space around it, a number that is read from what is shown for it, items without ';'. */
  predicate CellSafe(fmt: Formats, v: Value) {
    match v
    case Str(s) => Trimmed(s)
    case Num(n) => var cell := Trim(fmt.showNumber(n)); cell != "" && fmt.parseNumber(cell) == n
    case Arr(items) => forall i :: 0 <= i < |items| && items[i].Str? ==> ';' !in items[i].s
    case _ => true
  }

  predicate ComesBack(fmt: Formats, json: Value -> string, attribute: Attribute, blocks: set<string>, v: Value) {
    var cell := Trim(FormatValue(fmt, json, v));
    cell != "" && Normalize(fmt, attribute, blocks, Str(cell)) == Ok(v)
  }

  function CountOf(s: string, c: char): nat {
    if s == "" then 0 else (if s[0] == c then 1 else 0) + CountOf(s[1..], c)
  }

  lemma {:induction false} SplitSize(s: string, c: char)
    ensures |Split(s, c)| == 1 + CountOf(s, c)
  {
    if s != "" {
      SplitSize(s[1..], c);
    }
  }

  lemma {:induction false} CountConcat(s: string, t: string, c: char)
    ensures CountOf(s + t, c) == CountOf(s, c) + CountOf(t, c)
  {
    if s == "" {
      assert s + t == t;
    } else {
      assert (s + t)[1..] == s[1..] + t;
      CountConcat(s[1..], t, c);
    }
  }

  lemma {:induction false} CountPositive(s: string, c: char)
    ensures CountOf(s, c) > 0 <==> c in s
  {
    if s != "" {
      CountPositive(s[1..], c);
      assert s == [s[0]] + s[1..];
    }
  }

  /** Items with a ';' among them split into more parts than there are items. */
  lemma {:induction false} JoinedCount(items: seq<string>)
    requires items != []
    ensures CountOf(Join(items, "; "), ';') >= |items| - 1
    ensures (exists i :: 0 <= i < |items| && ';' in items[i]) ==> CountOf(Join(items, "; "), ';') > |items| - 1
  {
    CountPositive(items[0], ';');
    if |items| > 1 {
      var tail := Join(items[1..], "; ");
      JoinedCount(items[1..]);
      CountConcat(items[0], "; ", ';');
      CountConcat(items[0] + "; ", tail, ';');
      assert CountOf("; ", ';') == 1 by {
        assert "; "[1..] == " " && " "[1..] == "";
      }
      if i :| 0 <= i < |items| && ';' in items[i] {
        assert i > 0 ==> items[1..][i - 1] == items[i];
      }
    }
  }

  lemma {:induction false} JoinedIsTrimmed(items: seq<string>)
    requires items != [] && forall i :: 0 <= i < |items| ==> items[i] != "" && Trimmed(items[i])
    ensures Join(items, "; ") != "" && Trimmed(Join(items, "; "))
    ensures Join(items, "; ")[0] == items[0][0]
  {
    if |items| > 1 {
      JoinedIsTrimmed(items[1..]);
      var tail := Join(items[1..], "; ");
      var joined := items[0] + "; " + tail;
      assert joined[|joined| - 1] == tail[|tail| - 1];
    }
  }

  lemma {:induction false} FormattedStrings(fmt: Formats, json: Value -> string, items: seq<Value>)
    requires AllStrings(items)
    ensures FormatItems(fmt, json, items) == StringsOf(items)
  {
    if items != [] {
      FormattedStrings(fmt, json, items[1..]);
    }
  }

  lemma ListOfText(s: string)
    ensures ListItems(Str(s)) == TrimAll(Split(s, ';'))
  {
    StringsOfStringArray(Split(s, ';'));
  }

  /** The text of a stored list, and the items read from it. */
  lemma ListText(fmt: Formats, json: Value -> string, v: Value)
    requires IsList(v) && forall i :: 0 <= i < |v.items| ==> v.items[i].s != ""
    ensures var cell := Join(ListItems(v), "; ");
      && FormatValue(fmt, json, v) == cell && Trim(cell) == cell && cell != ""
      && |ListItems(v)| == |v.items| && forall i :: 0 <= i < |v.items| ==> v.items[i] == Str(ListItems(v)[i])
  {
    FixedList(v);
    FormattedStrings(fmt, json, v.items);
    ListIsItsStrings(v);
    JoinedIsTrimmed(ListItems(v));
    TrimIsProjection(Join(ListItems(v), "; "));
  }

  lemma SafeListReads(fmt: Formats, v: Value)
    requires IsList(v) && (forall i :: 0 <= i < |v.items| ==> v.items[i].s != "") && CellSafe(fmt, v)
    ensures ListItems(Str(Join(ListItems(v), "; "))) == ListItems(v)
  {
    FixedList(v);
    var items := ListItems(v);
    forall i | 0 <= i < |items| ensures ';' !in items[i] && Trimmed(items[i]) {
      assert v.items[i] == Str(items[i]);
    }
    SplitUndoesJoin(items, ';');
    ListOfText(Join(items, "; "));
  }

  lemma UnsafeListReads(fmt: Formats, v: Value)
    requires IsList(v) && !CellSafe(fmt, v)
    ensures |ListItems(Str(Join(ListItems(v), "; ")))| > |v.items|
  {
    FixedList(v);
    var items := ListItems(v);
    var i :| 0 <= i < |v.items| && v.items[i].Str? && ';' in v.items[i].s;
    assert ';' in items[i];
    JoinedCount(items);
    SplitSize(Join(items, "; "), ';');
    ListOfText(Join(items, "; "));
  }

  /** A list value depends only on its items. */
  lemma SameItems(config: Value, v: Value, cell: string)
    requires IsList(v) && cell != "" && NormalizeMultiSelect(config, v) == Ok(v)
    ensures ListItems(Str(cell)) == ListItems(v) ==> NormalizeMultiSelect(config, Str(cell)) == Ok(v)
    ensures |ListItems(Str(cell))| > |v.items| ==> NormalizeMultiSelect(config, Str(cell)) != Ok(v)
  {
  }

  lemma ListComesBack(fmt: Formats, json: Value -> string, attribute: Attribute, blocks: set<string>, v: Value)
    requires attribute.kind.MultiSelect? && WellFormed(fmt, attribute, blocks, v)
    ensures ComesBack(fmt, json, attribute, blocks, v) <==> CellSafe(fmt, v)
  {
    FixedMultiSelect(fmt, attribute, blocks, v);
    ListText(fmt, json, v);
    SameItems(attribute.config, v, Join(ListItems(v), "; "));
    if CellSafe(fmt, v) {
      SafeListReads(fmt, v);
    } else {
      UnsafeListReads(fmt, v);
    }
  }

  lemma ListIsItsStrings(v: Value)
    requires IsList(v)
    ensures ListItems(v) == StringsOf(v.items)
  {
    FixedList(v);
    StringsOfStringArray(ListItems(v));
  }

  lemma TextComesBack(fmt: Formats, json: Value -> string, attribute: Attribute, blocks: set<string>, v: Value)
    requires Plain(attribute.kind) && !attribute.kind.MultiSelect? && WellFormed(fmt, attribute, blocks, v) && v.Str?
    ensures ComesBack(fmt, json, attribute, blocks, v) <==> CellSafe(fmt, v)
  {
    TrimIsProjection(v.s);
    FixedPoints(fmt, attribute, blocks, v);
  }

  lemma NumberComesBack(fmt: Formats, json: Value -> string, attribute: Attribute, blocks: set<string>, v: Value)
    requires attribute.kind.NumberType? && WellFormed(fmt, attribute, blocks, v)
    ensures ComesBack(fmt, json, attribute, blocks, v) <==> CellSafe(fmt, v)
  {
  }

  lemma CheckboxComesBack(fmt: Formats, json: Value -> string, attribute: Attribute, blocks: set<string>, v: Value)
    requires LibraryOk(fmt) && attribute.kind.Checkbox? && WellFormed(fmt, attribute, blocks, v)
    ensures ComesBack(fmt, json, attribute, blocks, v)
  {
    hide NormalizeSelect;
    hide NormalizeMultiSelect;
    hide NormalizeString;
    TrimIsProjection("true");
    TrimIsProjection("false");
    hide Trim;
  }

  /**
   A stored value survives the sheet exactly when its text has no white space around it, its items no ';', and its
   number is the one that is read from what is shown for it.
   */
  lemma ValueComesBackExactly(fmt: Formats, json: Value -> string, attribute: Attribute, blocks: set<string>, v: Value)
    requires LibraryOk(fmt) && Plain(attribute.kind) && WellFormed(fmt, attribute, blocks, v)
    ensures ComesBack(fmt, json, attribute, blocks, v) <==> CellSafe(fmt, v)
  {
    match attribute.kind
    case MultiSelect => ListComesBack(fmt, json, attribute, blocks, v);
    case NumberType => NumberComesBack(fmt, json, attribute, blocks, v);
    case Checkbox => CheckboxComesBack(fmt, json, attribute, blocks, v);
    case _ => TextComesBack(fmt, json, attribute, blocks, v);
  }

  // The header row

  /** The exported columns: plain attributes of the event. */
  predicate ColumnsOk(cat: Catalog, event: Id, index: BlockIndex, columns: seq<Column>) {
    && DistinctIds(columns)
    && forall i :: 0 <= i < |columns| ==>
         && columns[i].uuid in cat.attributes && cat.attributes[columns[i].uuid].event == event
         && Plain(cat.attributes[columns[i].uuid].kind) && columns[i].uuid !in index
  }

  /** The exported columns' names are trimmed, and no header of theirs is that of a reserved column. */
  predicate HeadersOk(fmt: Formats, columns: seq<Column>) {
    forall i :: 0 <= i < |columns| ==>
      Trimmed(columns[i].name) && fmt.lower(HeaderAt(columns, i)) !in {"email", "participantuuid"}
  }

  lemma HeaderIsTrimmed(columns: seq<Column>, i: nat)
    requires i < |columns| && Trimmed(columns[i].name)
    ensures Trim(HeaderAt(columns, i)) == HeaderAt(columns, i) != ""
  {
    TrimIsProjection(columns[i].name);
    var base := Base(columns[i]);
    assert base != "" && Trimmed(base);
    var suffixed := Suffixed(columns[i]);
    assert suffixed[0] == base[0] && suffixed[|suffixed| - 1] == ')';
    TrimIsProjection(base);
    TrimIsProjection(suffixed);
  }

  /** The attributes that the exported columns are taken for by a reader of all columns of the event. */
  function ReadIds(fmt: Formats, all: seq<Column>, columns: seq<Column>): (keys: seq<Id>)
    ensures |keys| == |columns|
    ensures forall i :: 0 <= i < |keys| ==> keys[i] == KeyFor(fmt, all, HeaderAt(columns, i)).GetOr("")
  {
    seq(|columns|, i requires 0 <= i < |columns| => KeyFor(fmt, all, HeaderAt(columns, i)).GetOr(""))
  }

  /** Different columns are taken for different attributes, whose ids are no fixed headers. */
  predicate KeysOk(columns: seq<Column>, keys: seq<Id>) {
    |keys| == |columns| && Distinct(keys) && forall i :: 0 <= i < |keys| ==> |keys[i]| == 36
  }

  lemma ReadApart(fmt: Formats, all: seq<Column>, chosen: set<Id>, i: nat, j: nat)
    requires NamesOk(all) && HeadersOk(fmt, Choose(all, chosen)) && i < j < |Choose(all, chosen)|
    ensures ReadIds(fmt, all, Choose(all, chosen))[i] != ReadIds(fmt, all, Choose(all, chosen))[j]
  {
    var x := ReadAs(fmt, all, chosen, i);
    var y := ReadAs(fmt, all, chosen, j);
    var at := Positions(all, chosen, |all|);
    assert at[i] < at[j];
    assert x != y ==> all[x].uuid != all[y].uuid;
  }

  lemma ReadIdsOk(fmt: Formats, all: seq<Column>, chosen: set<Id>)
    requires NamesOk(all) && HeadersOk(fmt, Choose(all, chosen))
    ensures KeysOk(Choose(all, chosen), ReadIds(fmt, all, Choose(all, chosen)))
  {
    var columns := Choose(all, chosen);
    forall i | 0 <= i < |columns| ensures |ReadIds(fmt, all, columns)[i]| == 36 {
      var q := ReadAs(fmt, all, chosen, i);
    }
    forall i, j | 0 <= i < j < |columns| ensures ReadIds(fmt, all, columns)[i] != ReadIds(fmt, all, columns)[j] {
      ReadApart(fmt, all, chosen, i, j);
    }
  }

  /** A misread column is taken for no exported attribute at all. */
  lemma MisreadKeyIsForeign(fmt: Formats, all: seq<Column>, chosen: set<Id>, i: nat, j: nat)
    requires NamesOk(all) && HeadersOk(fmt, Choose(all, chosen))
    requires i < |Choose(all, chosen)| && j < |Choose(all, chosen)|
    requires Misread(all, chosen, Positions(all, chosen, |all|)[j])
    ensures ReadIds(fmt, all, Choose(all, chosen))[i] != Choose(all, chosen)[j].uuid
  {
    var x := ReadAs(fmt, all, chosen, i);
    if i == j {
      assert x != Positions(all, chosen, |all|)[j];
    }
    assert all[x].uuid in chosen ==> x == Positions(all, chosen, |all|)[i];
    assert i < j ==> Positions(all, chosen, |all|)[i] < Positions(all, chosen, |all|)[j];
    assert j < i ==> Positions(all, chosen, |all|)[j] < Positions(all, chosen, |all|)[i];
  }

  function ExpectedKeys(keys: seq<Id>): Keys {
    [Some("participantUuid"), Some("email")] + seq(|keys|, i requires 0 <= i < |keys| => Some(keys[i]))
  }

  lemma KeyIsNew(columns: seq<Column>, keys: seq<Id>, i: nat)
    requires KeysOk(columns, keys) && i < |keys|
    ensures Some(keys[i]) !in ExpectedKeys(keys)[..i + 2]
    ensures ExpectedKeys(keys)[..i + 3] == ExpectedKeys(keys)[..i + 2] + [Some(keys[i])]
  {
    assert |"email"| == 5 && |"participantUuid"| == 15;
    var before := ExpectedKeys(keys)[..i + 2];
    forall j | 0 <= j < i + 2 ensures before[j] != Some(keys[i]) {
      if j >= 2 {
        assert before[j] == Some(keys[j - 2]);
      }
    }
  }

  lemma OneMoreKey(fmt: Formats, columns: seq<Column>, cells: seq<string>, n: nat, before: Keys, header: string,
                   key: string)
    requires n < |cells| && ColumnKeys(fmt, columns, cells, n) == Ok(before)
    requires Trim(cells[n]) == header && header != "" && KeyFor(fmt, columns, header) == Some(key)
    requires Some(key) !in before
    ensures ColumnKeys(fmt, columns, cells, n + 1) == Ok(before + [Some(key)])
  {
  }

  lemma FixedHeaders(fmt: Formats, columns: seq<Column>, cells: seq<string>)
    requires LibraryOk(fmt) && |cells| >= 2 && cells[0] == "participantUuid" && cells[1] == "email"
    ensures ColumnKeys(fmt, columns, cells, 2) == Ok([Some("participantUuid"), Some("email")])
  {
    TrimIsProjection("participantUuid");
    TrimIsProjection("email");
    assert |"email"| == 5 && |"participantUuid"| == 15;
    OneMoreKey(fmt, columns, cells, 0, [], "participantUuid", "participantUuid");
    assert [] + [Some("participantUuid")] == [Some("participantUuid")];
    OneMoreKey(fmt, columns, cells, 1, [Some("participantUuid")], "email", "email");
    assert [Some("participantUuid")] + [Some("email")] == [Some("participantUuid"), Some("email")];
  }

  /** The exported header row is understood with all columns of the event at hand: each column finds an attribute. */
  lemma {:induction false} HeaderRowIsRead(fmt: Formats, all: seq<Column>, chosen: set<Id>, n: nat)
    requires LibraryOk(fmt) && NamesOk(all) && HeadersOk(fmt, Choose(all, chosen)) && n <= |Choose(all, chosen)|
    ensures var columns := Choose(all, chosen);
      ColumnKeys(fmt, all, HeaderRow(columns), n + 2) == Ok(ExpectedKeys(ReadIds(fmt, all, columns))[..n + 2])
    decreases n
  {
    var columns := Choose(all, chosen);
    if n == 0 {
      FixedHeaders(fmt, all, HeaderRow(columns));
      assert ExpectedKeys(ReadIds(fmt, all, columns))[..2] == [Some("participantUuid"), Some("email")];
    } else {
      HeaderRowIsRead(fmt, all, chosen, n - 1);
      NextHeader(fmt, all, chosen, n - 1);
    }
  }

  lemma NextHeader(fmt: Formats, all: seq<Column>, chosen: set<Id>, n: nat)
    requires NamesOk(all) && HeadersOk(fmt, Choose(all, chosen)) && n < |Choose(all, chosen)|
    requires var columns := Choose(all, chosen);
      ColumnKeys(fmt, all, HeaderRow(columns), n + 2) == Ok(ExpectedKeys(ReadIds(fmt, all, columns))[..n + 2])
    ensures var columns := Choose(all, chosen);
      ColumnKeys(fmt, all, HeaderRow(columns), n + 3) == Ok(ExpectedKeys(ReadIds(fmt, all, columns))[..n + 3])
  {
    var columns := Choose(all, chosen);
    var keys := ReadIds(fmt, all, columns);
    HeaderIsTrimmed(columns, n);
    var q := ReadAs(fmt, all, chosen, n);
    ReadIdsOk(fmt, all, chosen);
    KeyIsNew(columns, keys, n);
    OneMoreKey(fmt, all, HeaderRow(columns), n + 2, ExpectedKeys(keys)[..n + 2], HeaderAt(columns, n), keys[n]);
  }

  // The rows

  predicate HasValue(column: Column, person: Person) {
    column.uuid in person.values && person.values[column.uuid] != Null
  }

  /** A participant that survives the sheet: a valid address, and values of their types that are safe. */
  predicate PersonOk(cat: Catalog, columns: seq<Column>, person: Person)
    requires forall i :: 0 <= i < |columns| ==> columns[i].uuid in cat.attributes
  {
    && Trim(person.email) != "" && cat.fmt.isEmail(cat.fmt.lower(Trim(person.email)))
    && forall i :: 0 <= i < |columns| && HasValue(columns[i], person) ==>
         var a := columns[i].uuid;
         && WellFormed(cat.fmt, cat.attributes[a], BlocksOf(cat, a), person.values[a])
         && InJson(person.values[a]) == person.values[a] && CellSafe(cat.fmt, person.values[a])
  }

  function CellText(fmt: Formats, json: Value -> string, column: Column, person: Person): string {
    Trim(Cell(fmt, json, column, person))
  }

  /** The entries read from a row. */
  function Entries(fmt: Formats, json: Value -> string, columns: seq<Column>, person: Person): seq<Entry> {
    if columns == [] then []
    else
      var rest := Entries(fmt, json, columns[1..], person);
      if HasValue(columns[0], person) then [(columns[0].uuid, Str(CellText(fmt, json, columns[0], person)))] + rest
      else rest
  }

  /** The entries they become. */
  function Saved(columns: seq<Column>, person: Person): seq<Entry> {
    if columns == [] then []
    else
      var rest := Saved(columns[1..], person);
      if HasValue(columns[0], person) then [(columns[0].uuid, person.values[columns[0].uuid])] + rest else rest
  }

  /** The entries as they are read: under the attributes that the columns are taken for. */
  function ReadEntries(fmt: Formats, json: Value -> string, columns: seq<Column>, keys: seq<Id>,
                       person: Person): seq<Entry>
    requires |keys| == |columns|
  {
    if columns == [] then []
    else
      var last := |columns| - 1;
      var before := ReadEntries(fmt, json, columns[..last], keys[..last], person);
      if HasValue(columns[last], person) then before + [(keys[last], Str(CellText(fmt, json, columns[last], person)))]
      else before
  }

  lemma {:induction false} EntriesSnoc(fmt: Formats, json: Value -> string, columns: seq<Column>, c: Column,
                                       person: Person)
    ensures Entries(fmt, json, columns + [c], person) == Entries(fmt, json, columns, person)
      + if HasValue(c, person) then [(c.uuid, Str(CellText(fmt, json, c, person)))] else []
  {
    if columns == [] {
      assert columns + [c] == [c] && [c][1..] == [];
    } else {
      EntriesSnoc(fmt, json, columns[1..], c, person);
      assert (columns + [c])[1..] == columns[1..] + [c];
    }
  }

  /** Where the columns with a value are taken for their own attributes, the entries are the person's. */
  lemma {:induction false} OwnEntriesAreRead(fmt: Formats, json: Value -> string, columns: seq<Column>, keys: seq<Id>,
                                             person: Person)
    requires |keys| == |columns|
    requires forall i :: 0 <= i < |columns| && HasValue(columns[i], person) ==> keys[i] == columns[i].uuid
    ensures ReadEntries(fmt, json, columns, keys, person) == Entries(fmt, json, columns, person)
  {
    if columns != [] {
      var last := |columns| - 1;
      OwnEntriesAreRead(fmt, json, columns[..last], keys[..last], person);
      EntriesSnoc(fmt, json, columns[..last], columns[last], person);
      assert columns[..last] + [columns[last]] == columns;
    }
  }

  lemma {:induction false} ReadUnderKeys(fmt: Formats, json: Value -> string, columns: seq<Column>, keys: seq<Id>,
                                         person: Person, m: nat)
    requires |keys| == |columns| && m < |ReadEntries(fmt, json, columns, keys, person)|
    ensures exists i :: 0 <= i < |keys| && keys[i] == ReadEntries(fmt, json, columns, keys, person)[m].0
  {
    var last := |columns| - 1;
    var before := ReadEntries(fmt, json, columns[..last], keys[..last], person);
    if m < |before| {
      ReadUnderKeys(fmt, json, columns[..last], keys[..last], person, m);
      var i :| 0 <= i < last && keys[..last][i] == before[m].0;
      assert keys[i] == before[m].0;
    } else {
      assert keys[last] == ReadEntries(fmt, json, columns, keys, person)[m].0;
    }
  }

  lemma TakeNext<T>(s: seq<T>, n: nat)
    requires n < |s|
    ensures s[..n + 1] == s[..n] + [s[n]]
  {
  }

  /** A value's cell is not blank, and a missing value's cell is. */
  lemma CellShowsValue(cat: Catalog, json: Value -> string, event: Id, index: BlockIndex, columns: seq<Column>,
                       person: Person, i: nat)
    requires LibraryOk(cat.fmt) && ColumnsOk(cat, event, index, columns) && PersonOk(cat, columns, person)
    requires i < |columns|
    ensures CellText(cat.fmt, json, columns[i], person) != "" <==> HasValue(columns[i], person)
    ensures HasValue(columns[i], person) ==>
      NormalizeFor(cat, columns[i].uuid, Str(CellText(cat.fmt, json, columns[i], person)))
          == Ok(person.values[columns[i].uuid])
  {
    var a := columns[i].uuid;
    if HasValue(columns[i], person) {
      ValueComesBackExactly(cat.fmt, json, cat.attributes[a], BlocksOf(cat, a), person.values[a]);
    }
  }

  lemma FixedCells(keys: seq<Id>, row: seq<string>)
    requires |row| >= 2
    ensures ReadCells(ExpectedKeys(keys), row, 2) == Dto(Trim(row[1]), [])
  {
    var expected := ExpectedKeys(keys);
    assert expected[0] == Some("participantUuid") && expected[1] == Some("email");
    assert |"email"| == 5 && |"participantUuid"| == 15;
    assert ReadCells(expected, row, 0) == Dto("", []);
    assert ReadCells(expected, row, 1) == Dto("", []);
  }

  lemma OneMoreCell(keys: Keys, row: seq<string>, n: nat)
    requires n < |row| && n < |keys|
    ensures ReadCells(keys, row, n + 1) == ReadCell(ReadCells(keys, row, n), keys[n], row[n])
  {
  }

  lemma {:induction false} RowIsRead(cat: Catalog, json: Value -> string, event: Id, index: BlockIndex,
                                     columns: seq<Column>, keys: seq<Id>, person: Person, n: nat)
    requires LibraryOk(cat.fmt) && ColumnsOk(cat, event, index, columns) && PersonOk(cat, columns, person)
    requires KeysOk(columns, keys) && n <= |columns|
    ensures ReadCells(ExpectedKeys(keys), PersonRow(cat.fmt, json, columns, person), n + 2)
         == Dto(Trim(person.email), ReadEntries(cat.fmt, json, columns[..n], keys[..n], person))
    decreases n
  {
    if n == 0 {
      FixedCells(keys, PersonRow(cat.fmt, json, columns, person));
    } else {
      RowIsRead(cat, json, event, index, columns, keys, person, n - 1);
      NextCell(cat, json, event, index, columns, keys, person, n - 1);
    }
  }

  lemma NextCell(cat: Catalog, json: Value -> string, event: Id, index: BlockIndex, columns: seq<Column>, keys: seq<Id>,
                 person: Person, n: nat)
    requires LibraryOk(cat.fmt) && ColumnsOk(cat, event, index, columns) && PersonOk(cat, columns, person)
    requires KeysOk(columns, keys) && n < |columns|
    requires ReadCells(ExpectedKeys(keys), PersonRow(cat.fmt, json, columns, person), n + 2)
          == Dto(Trim(person.email), ReadEntries(cat.fmt, json, columns[..n], keys[..n], person))
    ensures ReadCells(ExpectedKeys(keys), PersonRow(cat.fmt, json, columns, person), n + 3)
         == Dto(Trim(person.email), ReadEntries(cat.fmt, json, columns[..n + 1], keys[..n + 1], person))
  {
    OneMoreCell(ExpectedKeys(keys), PersonRow(cat.fmt, json, columns, person), n + 2);
    CellShowsValue(cat, json, event, index, columns, person, n);
    CellIsRead(cat.fmt, json, columns, keys, person, n,
        Dto(Trim(person.email), ReadEntries(cat.fmt, json, columns[..n], keys[..n], person)));
    assert columns[..n + 1][..n] == columns[..n] && keys[..n + 1][..n] == keys[..n];
  }

  lemma CellIsRead(fmt: Formats, json: Value -> string, columns: seq<Column>, keys: seq<Id>, person: Person, i: nat,
                   dto: Dto)
    requires KeysOk(columns, keys) && i < |columns|
    requires CellText(fmt, json, columns[i], person) != "" <==> HasValue(columns[i], person)
    ensures ExpectedKeys(keys)[i + 2] == Some(keys[i])
    ensures ReadCell(dto, ExpectedKeys(keys)[i + 2], PersonRow(fmt, json, columns, person)[i + 2])
         == dto.(attributes := dto.attributes +
             if HasValue(columns[i], person) then [(keys[i], Str(CellText(fmt, json, columns[i], person)))] else [])
  {
    assert |"email"| == 5 && |"participantUuid"| == 15;
  }

  /** The rows that the import reads from an exported sheet. */
  function ReadBack(fmt: Formats, json: Value -> string, columns: seq<Column>, keys: seq<Id>,
                    people: seq<Person>): (dtos: seq<Dto>)
    requires |keys| == |columns|
    ensures |dtos| == |people|
    ensures forall i :: 0 <= i < |people| ==>
        dtos[i] == Dto(Trim(people[i].email), ReadEntries(fmt, json, columns, keys, people[i]))
  {
    seq(|people|, i requires 0 <= i < |people| =>
      Dto(Trim(people[i].email), ReadEntries(fmt, json, columns, keys, people[i])))
  }

  predicate PeopleOk(cat: Catalog, event: Id, index: BlockIndex, columns: seq<Column>, people: seq<Person>) {
    && ColumnsOk(cat, event, index, columns)
    && |people| <= MAX_IMPORT_PARTICIPANTS
    && forall i :: 0 <= i < |people| ==> PersonOk(cat, columns, people[i])
  }

  lemma OneMoreRow(keys: Keys, rows: seq<seq<string>>, n: nat, before: seq<Dto>, dto: Dto)
    requires n < |rows| && ReadRows(keys, rows, n) == Ok(before) && |before| < MAX_IMPORT_PARTICIPANTS
    requires ReadCells(keys, rows[n], |rows[n]|) == dto && dto.email != ""
    ensures ReadRows(keys, rows, n + 1) == Ok(before + [dto])
  {
  }

  lemma RowIsReadBack(cat: Catalog, json: Value -> string, event: Id, index: BlockIndex, columns: seq<Column>,
                      keys: seq<Id>, person: Person)
    requires LibraryOk(cat.fmt) && ColumnsOk(cat, event, index, columns) && PersonOk(cat, columns, person)
    requires KeysOk(columns, keys)
    ensures var row := PersonRow(cat.fmt, json, columns, person);
      ReadCells(ExpectedKeys(keys), row, |row|)
        == Dto(Trim(person.email), ReadEntries(cat.fmt, json, columns, keys, person))
  {
    RowIsRead(cat, json, event, index, columns, keys, person, |columns|);
    TakeAll(columns);
    TakeAll(keys);
  }

  /** `rows` are the rows of `people`, and `dtos` what is read from each. */
  ghost predicate Rendered(fmt: Formats, json: Value -> string, columns: seq<Column>, keys: seq<Id>,
                           people: seq<Person>,
                           rows: seq<seq<string>>, dtos: seq<Dto>)
  {
    && |people| == |rows| == |dtos| && |keys| == |columns|
    && (forall i :: 0 <= i < |people| ==> rows[i] == PersonRow(fmt, json, columns, people[i]))
    && forall i :: 0 <= i < |people| ==>
         dtos[i] == Dto(Trim(people[i].email), ReadEntries(fmt, json, columns, keys, people[i]))
  }

  lemma RowAt(cat: Catalog, json: Value -> string, event: Id, index: BlockIndex, columns: seq<Column>, keys: seq<Id>,
              people: seq<Person>, rows: seq<seq<string>>, dtos: seq<Dto>, i: nat)
    requires LibraryOk(cat.fmt) && PeopleOk(cat, event, index, columns, people) && i < |people|
    requires KeysOk(columns, keys) && Rendered(cat.fmt, json, columns, keys, people, rows, dtos)
    ensures i < |rows| && i < |dtos| <= MAX_IMPORT_PARTICIPANTS && dtos[i].email != ""
    ensures ReadCells(ExpectedKeys(keys), rows[i], |rows[i]|) == dtos[i]
  {
    RowIsReadBack(cat, json, event, index, columns, keys, people[i]);
  }

  lemma {:induction false} AllRowsRead(keys: Keys, rows: seq<seq<string>>, dtos: seq<Dto>, n: nat)
    requires n <= |rows| == |dtos| <= MAX_IMPORT_PARTICIPANTS
    requires forall i :: 0 <= i < |rows| ==> dtos[i].email != "" && ReadCells(keys, rows[i], |rows[i]|) == dtos[i]
    ensures ReadRows(keys, rows, n) == Ok(dtos[..n])
    decreases n
  {
    if n > 0 {
      AllRowsRead(keys, rows, dtos, n - 1);
      OneMoreRow(keys, rows, n - 1, dtos[..n - 1], dtos[n - 1]);
      TakeNext(dtos, n - 1);
    }
  }

  lemma RowsAreRead(cat: Catalog, json: Value -> string, event: Id, index: BlockIndex, columns: seq<Column>,
                    keys: seq<Id>,
                    people: seq<Person>, rows: seq<seq<string>>, dtos: seq<Dto>)
    requires LibraryOk(cat.fmt) && PeopleOk(cat, event, index, columns, people)
    requires KeysOk(columns, keys) && Rendered(cat.fmt, json, columns, keys, people, rows, dtos)
    ensures ReadRows(ExpectedKeys(keys), rows, |rows|) == Ok(dtos)
  {
    forall i | 0 <= i < |rows|
      ensures dtos[i].email != "" && ReadCells(ExpectedKeys(keys), rows[i], |rows[i]|) == dtos[i]
    {
      RowAt(cat, json, event, index, columns, keys, people, rows, dtos, i);
    }
    AllRowsRead(ExpectedKeys(keys), rows, dtos, |rows|);
    TakeAll(dtos);
  }

  lemma TakeAll<T>(s: seq<T>)
    ensures s[..|s|] == s
  {
  }

  lemma KeysHaveEmail(keys: seq<Id>)
    ensures Some("email") in ExpectedKeys(keys)
  {
    assert ExpectedKeys(keys)[1] == Some("email");
  }

  lemma ParseBack(fmt: Formats, columns: seq<Column>, sheet: Sheet, keys: Keys, dtos: seq<Dto>)
    requires sheet != [] && ColumnKeys(fmt, columns, sheet[0], |sheet[0]|) == Ok(keys) && Some("email") in keys
    requires ReadRows(keys, sheet[1..], |sheet| - 1) == Ok(dtos)
    ensures ParseSheet(fmt, columns, Some(sheet)) == Ok(dtos)
  {
  }

  /** The exported sheet, read with all columns of the event at hand, gives one row for each participant. */
  lemma SheetIsRead(cat: Catalog, json: Value -> string, event: Id, index: BlockIndex, all: seq<Column>,
                    chosen: set<Id>,
                    people: seq<Person>)
    requires LibraryOk(cat.fmt) && NamesOk(all) && HeadersOk(cat.fmt, Choose(all, chosen))
    requires PeopleOk(cat, event, index, Choose(all, chosen), people)
    ensures var columns := Choose(all, chosen);
      ParseSheet(cat.fmt, all, Some(ExportSheet(cat.fmt, json, columns, people)))
        == Ok(ReadBack(cat.fmt, json, columns, ReadIds(cat.fmt, all, columns), people))
  {
    var columns := Choose(all, chosen);
    var keys := ReadIds(cat.fmt, all, columns);
    var sheet, dtos := ExportSheet(cat.fmt, json, columns, people), ReadBack(cat.fmt, json, columns, keys, people);
    ReadIdsOk(cat.fmt, all, chosen);
    HeaderRowIsRead(cat.fmt, all, chosen, |columns|);
    TakeAll(ExpectedKeys(keys));
    KeysHaveEmail(keys);
    RowsAreRead(cat, json, event, index, columns, keys, people, sheet[1..], dtos);
    ParseBack(cat.fmt, all, sheet, ExpectedKeys(keys), dtos);
  }

  // Registering the rows

  lemma {:induction false} EntriesResolve(fmt: Formats, json: Value -> string, index: BlockIndex, columns: seq<Column>,
                                          person: Person)
    requires forall i :: 0 <= i < |columns| ==> columns[i].uuid !in index
    ensures ResolveBlockNames(index, Entries(fmt, json, columns, person)) == Ok(Entries(fmt, json, columns, person))
  {
    if columns != [] {
      EntriesResolve(fmt, json, index, columns[1..], person);
      if HasValue(columns[0], person) {
        var first := (columns[0].uuid, Str(CellText(fmt, json, columns[0], person)));
        assert ([first] + Entries(fmt, json, columns[1..], person))[1..] == Entries(fmt, json, columns[1..], person);
      }
    }
  }

  /** Every value in the row normalises to what was stored. */
  predicate CellsOk(cat: Catalog, json: Value -> string, event: Id, columns: seq<Column>, person: Person) {
    forall i :: 0 <= i < |columns| && HasValue(columns[i], person) ==>
      var a := columns[i].uuid;
      && a in cat.attributes && cat.attributes[a].event == event && Plain(cat.attributes[a].kind)
      && NormalizeFor(cat, a, Str(CellText(cat.fmt, json, columns[i], person))) == Ok(person.values[a])
      && InJson(person.values[a]) == person.values[a]
  }

  lemma {:induction false} EntriesPrepare(cat: Catalog, json: Value -> string, rows: map<RowKey, Value>, event: Id,
                                          columns: seq<Column>, person: Person)
    requires CatalogOk(cat) && CellsOk(cat, json, event, columns, person)
    ensures PrepareEach(cat, rows, event, Entries(cat.fmt, json, columns, person), false, None)
        == Ok(Saved(columns, person))
    ensures KeysAreUuids(cat.fmt, Entries(cat.fmt, json, columns, person))
  {
    if columns != [] {
      assert forall i :: 0 <= i < |columns[1..]| ==> columns[1..][i] == columns[i + 1];
      EntriesPrepare(cat, json, rows, event, columns[1..], person);
      if HasValue(columns[0], person) {
        var first := (columns[0].uuid, Str(CellText(cat.fmt, json, columns[0], person)));
        PrepareCons(cat, rows, event, first, Entries(cat.fmt, json, columns[1..], person),
            person.values[columns[0].uuid]);
      }
    }
  }

  lemma PrepareCons(cat: Catalog, rows: map<RowKey, Value>, event: Id, first: Entry, rest: seq<Entry>, v: Value)
    requires cat.prefix != "" && first.0 in cat.attributes && cat.attributes[first.0].event == event
    requires Plain(cat.attributes[first.0].kind)
    requires NormalizeFor(cat, first.0, first.1) == Ok(v) && InJson(v) == v
    requires PrepareEach(cat, rows, event, rest, false, None).Ok?
    ensures PrepareEach(cat, rows, event, [first] + rest, false, None)
         == Ok([(first.0, v)] + PrepareEach(cat, rows, event, rest, false, None).value)
  {
    assert ([first] + rest)[1..] == rest;
  }

  /** The entry is the value of one of the columns. */
  ghost predicate ColumnEntry(columns: seq<Column>, person: Person, entry: Entry) {
    exists i :: 0 <= i < |columns| && HasValue(columns[i], person) &&
        entry == (columns[i].uuid, person.values[columns[i].uuid])
  }

  lemma ColumnEntryOfRest(columns: seq<Column>, person: Person, entry: Entry)
    requires columns != [] && DistinctIds(columns) && ColumnEntry(columns[1..], person, entry)
    ensures ColumnEntry(columns, person, entry) && entry.0 != columns[0].uuid
  {
    var i :| 0 <= i < |columns[1..]| && HasValue(columns[1..][i], person) &&
        entry == (columns[1..][i].uuid, person.values[columns[1..][i].uuid]);
    assert columns[i + 1] == columns[1..][i];
    assert columns[0].uuid != columns[i + 1].uuid;
  }

  /** The saved entries are values of the columns, each column at most once. */
  lemma {:induction false} SavedEntries(columns: seq<Column>, person: Person)
    requires DistinctIds(columns)
    ensures DistinctKeys(Saved(columns, person))
    ensures forall j :: 0 <= j < |Saved(columns, person)| ==> ColumnEntry(columns, person, Saved(columns, person)[j])
  {
    if columns != [] {
      var rest := Saved(columns[1..], person);
      assert DistinctIds(columns[1..]) by {
        assert forall i :: 0 <= i < |columns[1..]| ==> columns[1..][i] == columns[i + 1];
      }
      SavedEntries(columns[1..], person);
      forall j | 0 <= j < |rest| ensures ColumnEntry(columns, person, rest[j]) && rest[j].0 != columns[0].uuid {
        ColumnEntryOfRest(columns, person, rest[j]);
      }
    }
  }

  /** And no column with a value is left out. */
  lemma {:induction false} SavedAll(columns: seq<Column>, person: Person, i: nat) returns (j: nat)
    requires i < |columns| && HasValue(columns[i], person)
    ensures j < |Saved(columns, person)|
    ensures Saved(columns, person)[j] == (columns[i].uuid, person.values[columns[i].uuid])
  {
    if i == 0 {
      j := 0;
    } else {
      assert columns[1..][i - 1] == columns[i];
      j := SavedAll(columns[1..], person, i - 1);
      j := if HasValue(columns[0], person) then j + 1 else j;
    }
  }

  lemma SavedMap(columns: seq<Column>, person: Person, i: nat)
    requires DistinctIds(columns) && i < |columns|
    ensures columns[i].uuid in ToMap(Saved(columns, person)) <==> HasValue(columns[i], person)
    ensures HasValue(columns[i], person) ==>
        ToMap(Saved(columns, person))[columns[i].uuid] == person.values[columns[i].uuid]
  {
    SavedEntries(columns, person);
    var saved := Saved(columns, person);
    if HasValue(columns[i], person) {
      var j := SavedAll(columns, person, i);
      assert ToMap(saved)[saved[j].0] == saved[j].1;
    }
    forall j | 0 <= j < |saved| ensures saved[j].0 == columns[i].uuid ==> HasValue(columns[i], person) {
      KeyMeansValue(columns, person, i, saved[j]);
    }
  }

  lemma KeyMeansValue(columns: seq<Column>, person: Person, i: nat, entry: Entry)
    requires DistinctIds(columns) && i < |columns| && ColumnEntry(columns, person, entry)
    ensures entry.0 == columns[i].uuid ==> HasValue(columns[i], person)
  {
    var k :| 0 <= k < |columns| && HasValue(columns[k], person) &&
        entry == (columns[k].uuid, person.values[columns[k].uuid]);
    assert k < i ==> columns[k].uuid != columns[i].uuid;
    assert i < k ==> columns[i].uuid != columns[k].uuid;
  }

  /** The address the import registers a participant under. */
  function Lowered(fmt: Formats, person: Person): string {
    fmt.lower(Trim(person.email))
  }

  /** Distinct addresses, of which none is stored. */
  predicate AddressesFree(cat: Catalog, db: Db, event: Id, people: seq<Person>) {
    && (forall i, j :: 0 <= i < j < |people| ==> Lowered(cat.fmt, people[i]) != Lowered(cat.fmt, people[j]))
    && forall i :: 0 <= i < |people| ==> !EmailTaken(db.participants, event, Lowered(cat.fmt, people[i]), None)
  }

  lemma AddressTwice(cat: Catalog, dto: Dto, person: Person)
    requires dto.email == Trim(person.email)
    ensures Address(cat.fmt, dto) == Lowered(cat.fmt, person)
  {
    TrimTwice(person.email);
  }

  /** The columns in which the person has a value are taken for their own attributes. */
  predicate OwnKeys(columns: seq<Column>, keys: seq<Id>, person: Person)
    requires |keys| == |columns|
  {
    forall k :: 0 <= k < |columns| && HasValue(columns[k], person) ==> keys[k] == columns[k].uuid
  }

  lemma AddressesAreKept(cat: Catalog, json: Value -> string, columns: seq<Column>, keys: seq<Id>, people: seq<Person>,
                         i: nat)
    requires |keys| == |columns| && i < |people|
    ensures Address(cat.fmt, ReadBack(cat.fmt, json, columns, keys, people)[i]) == Lowered(cat.fmt, people[i])
  {
    AddressTwice(cat, ReadBack(cat.fmt, json, columns, keys, people)[i], people[i]);
  }

  lemma RowIsAcceptable(cat: Catalog, json: Value -> string, db: Db, event: Id, index: BlockIndex, columns: seq<Column>,
                        keys: seq<Id>, people: seq<Person>, i: nat)
    requires CatalogOk(cat) && event in cat.events && LibraryOk(cat.fmt) && PeopleOk(cat, event, index, columns, people)
    requires AddressesFree(cat, db, event, people) && |keys| == |columns| && i < |people|
    requires OwnKeys(columns, keys, people[i])
    ensures var dtos := ReadBack(cat.fmt, json, columns, keys, people);
      && Acceptable(cat, db, event, index, dtos, i) && Address(cat.fmt, dtos[i]) == Lowered(cat.fmt, people[i])
      && RowValues(cat, db.rows, event, index, dtos[i]) == Ok(Saved(columns, people[i]))
  {
    var dtos := ReadBack(cat.fmt, json, columns, keys, people);
    forall j | 0 <= j < |people| ensures Address(cat.fmt, dtos[j]) == Lowered(cat.fmt, people[j]) {
      AddressesAreKept(cat, json, columns, keys, people, j);
    }
    OwnEntriesAreRead(cat.fmt, json, columns, keys, people[i]);
    EntriesResolve(cat.fmt, json, index, columns, people[i]);
    forall k | 0 <= k < |columns| && HasValue(columns[k], people[i])
      ensures NormalizeFor(cat, columns[k].uuid, Str(CellText(cat.fmt, json, columns[k], people[i])))
          == Ok(people[i].values[columns[k].uuid])
    {
      CellShowsValue(cat, json, event, index, columns, people[i], k);
    }
    EntriesPrepare(cat, json, db.rows, event, columns, people[i]);
    SavedEntries(columns, people[i]);
  }

  /** The person is registered again, and has the same value for every exported attribute. */
  predicate CameBack(fmt: Formats, columns: seq<Column>, person: Person, id: Id, outcome: Outcome,
                     rows: map<RowKey, Value>) {
    && outcome == Imported(id, Lowered(fmt, person))
    && forall k :: 0 <= k < |columns| ==>
         var a := columns[k].uuid;
         && ((id, a) in rows <==> HasValue(columns[k], person))
         && (HasValue(columns[k], person) ==> rows[(id, a)] == person.values[a])
  }

  lemma PersonComesBack(cat: Catalog, json: Value -> string, db: Db, event: Id, index: BlockIndex, columns: seq<Column>,
                        keys: seq<Id>, people: seq<Person>, ids: seq<Id>, i: nat)
    requires CatalogOk(cat) && event in cat.events && LibraryOk(cat.fmt) && PeopleOk(cat, event, index, columns, people)
    requires AddressesFree(cat, db, event, people) && |keys| == |columns| && i < |people| <= |ids| && FreshIds(db, ids)
    requires OwnKeys(columns, keys, people[i])
    ensures var progress := ImportRows(cat, db, event, index, ReadBack(cat.fmt, json, columns, keys, people), ids,
        |people|);
      CameBack(cat.fmt, columns, people[i], ids[i], progress.outcomes[i], progress.db.rows)
  {
    var dtos := ReadBack(cat.fmt, json, columns, keys, people);
    RowIsAcceptable(cat, json, db, event, index, columns, keys, people, i);
    RowsImportedExactly(cat, db, event, index, dtos, ids, |dtos|, i);
    ImportStoresValues(cat, db, event, index, dtos, ids, |dtos|, i);
    forall k | 0 <= k < |columns|
      ensures columns[k].uuid in ToMap(Saved(columns, people[i])) <==> HasValue(columns[k], people[i])
      ensures HasValue(columns[k], people[i]) ==>
        ToMap(Saved(columns, people[i]))[columns[k].uuid] == people[i].values[columns[k].uuid]
    {
      SavedMap(columns, people[i], k);
    }
  }

  /** A row stores nothing under an attribute that no column is taken for. */
  lemma UnreadIsNotStored(cat: Catalog, json: Value -> string, rows: map<RowKey, Value>, event: Id, index: BlockIndex,
                          columns: seq<Column>, keys: seq<Id>, people: seq<Person>, i: nat, a: Id)
    requires cat.prefix != "" && |keys| == |columns| && i < |people| && a !in keys
    ensures var saved := RowValues(cat, rows, event, index, ReadBack(cat.fmt, json, columns, keys, people)[i]);
      saved.Ok? ==> a !in ToMap(saved.value)
  {
    var dto := ReadBack(cat.fmt, json, columns, keys, people)[i];
    var saved := RowValues(cat, rows, event, index, dto);
    if saved.Ok? && a in ToMap(saved.value) {
      var entries := ResolveBlockNames(index, dto.attributes).value;
      var m := PreparedMap(cat, rows, event, entries, false, None, a);
      ResolvedKeys(index, dto.attributes);
      ReadUnderKeys(cat.fmt, json, columns, keys, people[i], m);
    }
  }

  lemma PersonIsLost(cat: Catalog, json: Value -> string, db: Db, event: Id, index: BlockIndex, columns: seq<Column>,
                     keys: seq<Id>, people: seq<Person>, ids: seq<Id>, i: nat, k: nat)
    requires cat.prefix != "" && LowersOnce(cat.fmt) && |keys| == |columns| && i < |people| <= |ids|
    requires FreshIds(db, ids)
    requires k < |columns| && HasValue(columns[k], people[i]) && columns[k].uuid !in keys
    ensures var progress := ImportRows(cat, db, event, index, ReadBack(cat.fmt, json, columns, keys, people), ids,
        |people|);
      !CameBack(cat.fmt, columns, people[i], ids[i], progress.outcomes[i], progress.db.rows)
  {
    var dtos := ReadBack(cat.fmt, json, columns, keys, people);
    RowsImportedExactly(cat, db, event, index, dtos, ids, |dtos|, i);
    if Acceptable(cat, db, event, index, dtos, i) {
      ImportStoresValues(cat, db, event, index, dtos, ids, |dtos|, i);
      UnreadIsNotStored(cat, json, db.rows, event, index, columns, keys, people, i, columns[k].uuid);
    }
  }

  // Exporting from a store

  /** A stored participant that survives the sheet: a valid address, and values without stray white space or ';'. */
  predicate Exportable(cat: Catalog, db: Db, columns: seq<Column>, p: Id)
    requires p in db.participants
  {
    var email := db.participants[p].email;
    && Trim(email) != "" && cat.fmt.isEmail(cat.fmt.lower(Trim(email)))
    && forall i :: 0 <= i < |columns| && (p, columns[i].uuid) in db.rows ==>
        CellSafe(cat.fmt, db.rows[(p, columns[i].uuid)])
  }

  /** What a sound store holds is of its type: only the address and the cells remain to be checked. */
  lemma StoredPersonOk(cat: Catalog, db: Db, columns: seq<Column>, p: Id)
    requires CatalogOk(cat) && StoreOk(cat, db) && p in db.participants
    requires forall i :: 0 <= i < |columns| ==> columns[i].uuid in cat.attributes
    ensures PersonOk(cat, columns, PersonOf(db, columns, p)) <==> Exportable(cat, db, columns, p)
  {
    var person := PersonOf(db, columns, p);
    forall i | 0 <= i < |columns|
      ensures HasValue(columns[i], person) <==> (p, columns[i].uuid) in db.rows && db.rows[(p, columns[i].uuid)] != Null
      ensures HasValue(columns[i], person) ==>
        var a, v := columns[i].uuid, db.rows[(p, columns[i].uuid)];
        person.values[a] == v && InJson(v) == v && WellFormed(cat.fmt, cat.attributes[a], BlocksOf(cat, a), v)
    {
      var k := (p, columns[i].uuid);
      if k in db.rows {
        FixedPoints(cat.fmt, cat.attributes[k.1], BlocksOf(cat, k.1), db.rows[k]);
      }
    }
  }

  /** The stored value of an exported attribute, if there is one other than null. */
  predicate HasStored(db: Db, k: RowKey) {
    k in db.rows && db.rows[k] != Null
  }

  lemma StoredPeopleOk(cat: Catalog, db: Db, event: Id, index: BlockIndex, columns: seq<Column>, order: seq<Id>)
    requires CatalogOk(cat) && StoreOk(cat, db) && ColumnsOk(cat, event, index, columns)
    requires |order| <= MAX_IMPORT_PARTICIPANTS
    requires forall i :: 0 <= i < |order| ==> order[i] in db.participants && Exportable(cat, db, columns, order[i])
    ensures PeopleOk(cat, event, index, columns, People(db, columns, order))
  {
    var people := People(db, columns, order);
    forall i | 0 <= i < |people| ensures PersonOk(cat, columns, people[i]) {
      StoredPersonOk(cat, db, columns, order[i]);
    }
  }

  /** Addresses of distinct participants differ in lower case too, and none of them is taken in the target. */
  predicate AddressesApart(cat: Catalog, db: Db, target: Db, event: Id, order: seq<Id>)
    requires forall i :: 0 <= i < |order| ==> order[i] in db.participants
  {
    && (forall i, j :: 0 <= i < j < |order| ==>
          cat.fmt.lower(Trim(db.participants[order[i]].email)) != cat.fmt.lower(Trim(db.participants[order[j]].email)))
    && forall i :: 0 <= i < |order| ==>
         !EmailTaken(target.participants, event, cat.fmt.lower(Trim(db.participants[order[i]].email)), None)
  }

  /** No misread column shows a value of the participant. */
  predicate NothingMisread(db: Db, all: seq<Column>, chosen: set<Id>, p: Id) {
    forall c :: 0 <= c < |all| && Misread(all, chosen, c) ==> !HasStored(db, (p, all[c].uuid))
  }

  /** The participant `p` is registered again as `id`, with the stored value of every exported attribute. */
  predicate Restored(cat: Catalog, db: Db, columns: seq<Column>, p: Id, id: Id, outcome: Outcome,
                     rows: map<RowKey, Value>)
    requires p in db.participants
  {
    && outcome == Imported(id, cat.fmt.lower(Trim(db.participants[p].email)))
    && forall k :: 0 <= k < |columns| ==>
         var a := columns[k].uuid;
         && ((id, a) in rows <==> HasStored(db, (p, a)))
         && (HasStored(db, (p, a)) ==> rows[(id, a)] == db.rows[(p, a)])
  }

  lemma RestoredMeansCameBack(cat: Catalog, db: Db, columns: seq<Column>, p: Id, id: Id, outcome: Outcome,
                              rows: map<RowKey, Value>)
    requires p in db.participants
    ensures Restored(cat, db, columns, p, id, outcome, rows)
       <==> CameBack(cat.fmt, columns, PersonOf(db, columns, p), id, outcome, rows)
  {
    forall k | 0 <= k < |columns|
      ensures HasValue(columns[k], PersonOf(db, columns, p)) <==> HasStored(db, (p, columns[k].uuid))
      ensures HasValue(columns[k], PersonOf(db, columns, p)) ==>
        PersonOf(db, columns, p).values[columns[k].uuid] == db.rows[(p, columns[k].uuid)]
    {
      assert columns[k].uuid in Ids(columns);
    }
  }

  lemma ShownIsStored(db: Db, columns: seq<Column>, p: Id, k: nat)
    requires p in db.participants && k < |columns|
    ensures HasValue(columns[k], PersonOf(db, columns, p)) <==> HasStored(db, (p, columns[k].uuid))
  {
    assert columns[k].uuid in Ids(columns);
  }

  /** A column is taken for its own attribute exactly when it is not misread. */
  lemma KeyIsOwnExactly(fmt: Formats, all: seq<Column>, chosen: set<Id>, k: nat)
    requires NamesOk(all) && HeadersOk(fmt, Choose(all, chosen)) && k < |Choose(all, chosen)|
    ensures ReadIds(fmt, all, Choose(all, chosen))[k] == Choose(all, chosen)[k].uuid
       <==> !Misread(all, chosen, Positions(all, chosen, |all|)[k])
  {
    var q := ReadAs(fmt, all, chosen, k);
    var p := Positions(all, chosen, |all|)[k];
    assert q != p ==> all[q].uuid != all[p].uuid;
  }

  lemma OwnMeansNothingMisread(fmt: Formats, db: Db, all: seq<Column>, chosen: set<Id>, p: Id)
    requires NamesOk(all) && HeadersOk(fmt, Choose(all, chosen)) && p in db.participants
    ensures var columns := Choose(all, chosen);
      OwnKeys(columns, ReadIds(fmt, all, columns), PersonOf(db, columns, p)) <==> NothingMisread(db, all, chosen, p)
  {
    var columns, at := Choose(all, chosen), Positions(all, chosen, |all|);
    var keys, person := ReadIds(fmt, all, columns), PersonOf(db, columns, p);
    forall k | 0 <= k < |columns|
      ensures HasValue(columns[k], person) <==> HasStored(db, (p, all[at[k]].uuid))
      ensures keys[k] == columns[k].uuid <==> !Misread(all, chosen, at[k])
    {
      ShownIsStored(db, columns, p, k);
      KeyIsOwnExactly(fmt, all, chosen, k);
    }
    if OwnKeys(columns, keys, person) {
      forall c | 0 <= c < |all| && Misread(all, chosen, c) ensures !HasStored(db, (p, all[c].uuid)) {
        var k :| 0 <= k < |at| && at[k] == c;
      }
    }
  }

  lemma PersonComesBackExactly(cat: Catalog, json: Value -> string, db: Db, event: Id, index: BlockIndex,
                               all: seq<Column>,
                               chosen: set<Id>, people: seq<Person>, ids: seq<Id>, i: nat)
    requires CatalogOk(cat) && event in cat.events && LibraryOk(cat.fmt)
    requires NamesOk(all) && HeadersOk(cat.fmt, Choose(all, chosen))
    requires PeopleOk(cat, event, index, Choose(all, chosen), people)
    requires AddressesFree(cat, db, event, people) && i < |people| <= |ids| && FreshIds(db, ids)
    ensures var columns := Choose(all, chosen);
      var keys := ReadIds(cat.fmt, all, columns);
      var progress := ImportRows(cat, db, event, index, ReadBack(cat.fmt, json, columns, keys, people), ids, |people|);
      CameBack(cat.fmt, columns, people[i], ids[i], progress.outcomes[i], progress.db.rows) <==>
        OwnKeys(columns, keys, people[i])
  {
    hide CameBack;
    hide PeopleOk;
    var columns := Choose(all, chosen);
    var keys := ReadIds(cat.fmt, all, columns);
    if OwnKeys(columns, keys, people[i]) {
      PersonComesBack(cat, json, db, event, index, columns, keys, people, ids, i);
    } else {
      var k :| 0 <= k < |columns| && HasValue(columns[k], people[i]) && keys[k] != columns[k].uuid;
      KeyIsOwnExactly(cat.fmt, all, chosen, k);
      forall m | 0 <= m < |keys| ensures keys[m] != columns[k].uuid {
        MisreadKeyIsForeign(cat.fmt, all, chosen, m, k);
      }
      PersonIsLost(cat, json, db, event, index, columns, keys, people, ids, i, k);
    }
  }

  /** An exported store, and a place to import to: what of both can be checked before. */
  predicate TransferOk(cat: Catalog, db: Db, event: Id, all: seq<Column>, chosen: set<Id>, order: seq<Id>, target: Db,
                       index: BlockIndex)
  {
    && NamesOk(all) && HeadersOk(cat.fmt, Choose(all, chosen)) && ColumnsOk(cat, event, index, Choose(all, chosen))
    && |order| <= MAX_IMPORT_PARTICIPANTS
    && (forall i :: 0 <= i < |order| ==>
          order[i] in db.participants && Exportable(cat, db, Choose(all, chosen), order[i]))
    && AddressesApart(cat, db, target, event, order)
  }

  lemma TransferIsParsed(cat: Catalog, json: Value -> string, db: Db, event: Id, all: seq<Column>, chosen: set<Id>,
                         order: seq<Id>, target: Db, index: BlockIndex)
    requires CatalogOk(cat) && LibraryOk(cat.fmt) && StoreOk(cat, db)
    requires TransferOk(cat, db, event, all, chosen, order, target, index)
    ensures var columns := Choose(all, chosen);
      && PeopleOk(cat, event, index, columns, People(db, columns, order))
      && AddressesFree(cat, target, event, People(db, columns, order))
      && ParseSheet(cat.fmt, all, Some(ExportSheet(cat.fmt, json, columns, People(db, columns, order))))
           == Ok(ReadBack(cat.fmt, json, columns, ReadIds(cat.fmt, all, columns), People(db, columns, order)))
  {
    hide Exportable;
    hide PeopleOk;
    var columns := Choose(all, chosen);
    StoredPeopleOk(cat, db, event, index, columns, order);
    SheetIsRead(cat, json, event, index, all, chosen, People(db, columns, order));
  }

  lemma TransferRestores(cat: Catalog, json: Value -> string, db: Db, event: Id, all: seq<Column>, chosen: set<Id>,
                         order: seq<Id>, target: Db, index: BlockIndex, ids: seq<Id>, i: nat)
    requires CatalogOk(cat) && event in cat.events && LibraryOk(cat.fmt) && FreshIds(target, ids)
    requires TransferOk(cat, db, event, all, chosen, order, target, index) && i < |order| <= |ids|
    requires PeopleOk(cat, event, index, Choose(all, chosen), People(db, Choose(all, chosen), order))
    requires AddressesFree(cat, target, event, People(db, Choose(all, chosen), order))
    ensures var columns := Choose(all, chosen);
      var dtos := ReadBack(cat.fmt, json, columns, ReadIds(cat.fmt, all, columns), People(db, columns, order));
      var progress := ImportRows(cat, target, event, index, dtos, ids, |order|);
      Restored(cat, db, columns, order[i], ids[i], progress.outcomes[i], progress.db.rows) <==>
        NothingMisread(db, all, chosen, order[i])
  {
    hide ColumnsOk;
    hide LibraryOk;
    hide Exportable;
    hide FreshIds;
    hide PeopleOk;
    hide AddressesFree;
    hide AddressesApart;
    hide Restored;
    hide CameBack;
    var columns := Choose(all, chosen);
    var keys, people := ReadIds(cat.fmt, all, columns), People(db, columns, order);
    PersonComesBackExactly(cat, json, target, event, index, all, chosen, people, ids, i);
    OwnMeansNothingMisread(cat.fmt, db, all, chosen, order[i]);
    var progress := ImportRows(cat, target, event, index, ReadBack(cat.fmt, json, columns, keys, people), ids, |order|);
    RestoredMeansCameBack(cat, db, columns, order[i], ids[i], progress.outcomes[i], progress.db.rows);
  }

  /**
   Export the chosen attributes from a store, then import with all attributes of the event at hand: a participant is
   registered again, under the lower-case address, with the stored value of every exported attribute (null and absent
   values absent), exactly when none of the participant's values is in a misread column.
   */
  lemma ExportThenImport(cat: Catalog, json: Value -> string, db: Db, event: Id, all: seq<Column>, chosen: set<Id>,
                         selected: set<Id>, order: seq<Id>, target: Db, index: BlockIndex, ids: seq<Id>, i: nat)
    requires CatalogOk(cat) && event in cat.events && LibraryOk(cat.fmt) && StoreOk(cat, db)
    requires Selects(db, event, selected, order) && i < |order| <= |ids| && FreshIds(target, ids)
    requires TransferOk(cat, db, event, all, chosen, order, target, index)
    ensures var columns := Choose(all, chosen);
      var parsed := ParseSheet(cat.fmt, all, Some(ExportSheet(cat.fmt, json, columns, People(db, columns, order))));
      && parsed.Ok? && |parsed.value| == |order|
      && var imported := ImportAll(cat, target, event, index, parsed.value, ids);
         && imported.Ok?
         && (Restored(cat, db, columns, order[i], ids[i], imported.value.outcomes[i], imported.value.db.rows) <==>
               NothingMisread(db, all, chosen, order[i]))
  {
    hide LibraryOk;
    hide CatalogOk;
    hide StoreOk;
    hide ColumnsOk;
    hide Exportable;
    hide FreshIds;
    hide PeopleOk;
    hide AddressesFree;
    hide AddressesApart;
    hide Restored;
    hide NothingMisread;
    hide NamesOk;
    hide HeadersOk;
    TransferIsParsed(cat, json, db, event, all, chosen, order, target, index);
    TransferRestores(cat, json, db, event, all, chosen, order, target, index, ids, i);
  }
}
