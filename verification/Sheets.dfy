/** Participant sheets as rows of text: how they are written on export and read on import. */
module Sheets {
  import opened Wrappers
  import opened Text
  import opened Values
  import opened Store

  /** An attribute as a column: its id and its name. */
  datatype Column = Column(uuid: Id, name: string)

  type Sheet = seq<seq<string>>

  // Headers

  function Base(column: Column): string {
    if Trim(column.name) != "" then column.name else "N/A"
  }

  predicate FirstOfName(columns: seq<Column>, i: nat)
    requires i < |columns|
  {
    forall j :: 0 <= j < i ==> Base(columns[j]) != Base(columns[i])
  }

  function Suffixed(column: Column): string {
    Base(column) + " (" + column.uuid + ")"
  }

  /** The first column of a name keeps it; the later ones get their id appended. */
  function HeaderAt(columns: seq<Column>, i: nat): string
    requires i < |columns|
  {
    if FirstOfName(columns, i) then Base(columns[i]) else Suffixed(columns[i])
  }

  function Headers(columns: seq<Column>): seq<string> {
    seq(|columns|, i requires 0 <= i < |columns| => HeaderAt(columns, i))
  }

  function Bases(columns: seq<Column>): seq<string> {
    seq(|columns|, i requires 0 <= i < |columns| => Base(columns[i]))
  }

  /** The names counted so far are those of the first `n` columns. */
  ghost predicate Counted(names: seq<string>, n: nat, counts: map<string, nat>)
    requires n <= |names|
  {
    && (forall base :: base in counts <==> base in names[..n])
    && forall base :: base in counts ==> counts[base] >= 1
  }

  lemma FirstMeansUnseen(columns: seq<Column>, i: nat)
    requires i < |columns|
    ensures FirstOfName(columns, i) <==> Base(columns[i]) !in Bases(columns)[..i]
  {
    var names := Bases(columns);
    assert forall j :: 0 <= j < i ==> names[..i][j] == Base(columns[j]);
  }

  lemma CountedNext(names: seq<string>, n: nat, counts: map<string, nat>, count: nat)
    requires n < |names| && Counted(names, n, counts) && count >= 1
    ensures Counted(names, n + 1, counts[names[n] := count])
  {
    assert names[..n + 1] == names[..n] + [names[n]];
  }

  /** The header that the count of its name gives a column. */
  lemma CountGivesHeader(columns: seq<Column>, n: nat, counts: map<string, nat>, count: nat)
    requires n < |columns| && Counted(Bases(columns), n, counts)
    requires count == 1 + if Base(columns[n]) in counts then counts[Base(columns[n])] else 0
    ensures (if count == 1 then Base(columns[n]) else Suffixed(columns[n])) == HeaderAt(columns, n)
  {
    FirstMeansUnseen(columns, n);
  }

  /** Counts how often each name has come up while walking the columns. */
  method BuildAttributeHeaders(columns: seq<Column>) returns (headers: seq<string>)
    ensures headers == Headers(columns)
  {
    var counts: map<string, nat> := map[];
    headers := [];
    for i := 0 to |columns|
      invariant headers == Headers(columns)[..i]
      invariant Counted(Bases(columns), i, counts)
    {
      var base := Base(columns[i]);
      var count := 1 + if base in counts then counts[base] else 0;
      CountGivesHeader(columns, i, counts, count);
      CountedNext(Bases(columns), i, counts, count);
      counts := counts[base := count];
      HeadersNext(columns, i);
      headers := headers + [if count == 1 then base else Suffixed(columns[i])];
    }
  }

  lemma HeadersNext(columns: seq<Column>, i: nat)
    requires i < |columns|
    ensures Headers(columns)[..i + 1] == Headers(columns)[..i] + [HeaderAt(columns, i)]
  {
  }

  predicate DistinctIds(columns: seq<Column>) {
    forall i, j :: 0 <= i < j < |columns| ==> columns[i].uuid != columns[j].uuid
  }

  /** No name reads like the header of a later column of another name: "name (id)". */
  predicate NoNameIsSuffixed(columns: seq<Column>) {
    forall i, j :: 0 <= i < |columns| && 0 <= j < |columns| && FirstOfName(columns, i) && !FirstOfName(columns, j) ==>
      Base(columns[i]) != Suffixed(columns[j])
  }

  lemma SuffixesApart(c: Column, d: Column)
    requires |c.uuid| == |d.uuid| && Suffixed(c) == Suffixed(d)
    ensures c.uuid == d.uuid
  {
    var s := Suffixed(c);
    var n := |s| - 1 - |c.uuid|;
    assert s[n..|s| - 1] == c.uuid;
    assert s[n..|s| - 1] == d.uuid;
  }

  lemma HeadersApart(columns: seq<Column>, i: nat, j: nat)
    requires DistinctIds(columns) && i < j < |columns| && |columns[i].uuid| == |columns[j].uuid|
    requires NoNameIsSuffixed(columns)
    ensures HeaderAt(columns, i) != HeaderAt(columns, j)
  {
    if !FirstOfName(columns, i) && !FirstOfName(columns, j) && HeaderAt(columns, i) == HeaderAt(columns, j) {
      SuffixesApart(columns[i], columns[j]);
    }
  }

  lemma SuffixedNameRepeats(columns: seq<Column>, i: nat, j: nat)
    requires i < |columns| && j < |columns| && FirstOfName(columns, i) && !FirstOfName(columns, j)
    requires Base(columns[i]) == Suffixed(columns[j])
    ensures !Distinct(Headers(columns))
  {
    var headers := Headers(columns);
    assert headers[i] == headers[j];
    if i < j {
      assert !(headers[i] != headers[j]);
    } else {
      assert j < i;
      assert !(headers[j] != headers[i]);
    }
  }

  /** The headers are distinct exactly when no name imitates a suffixed header; ids have one length. */
  lemma HeadersAreDistinctExactly(columns: seq<Column>)
    requires DistinctIds(columns) && forall i :: 0 <= i < |columns| ==> |columns[i].uuid| == 36
    ensures Distinct(Headers(columns)) <==> NoNameIsSuffixed(columns)
  {
    if NoNameIsSuffixed(columns) {
      forall i, j | 0 <= i < j < |columns| ensures Headers(columns)[i] != Headers(columns)[j] {
        HeadersApart(columns, i, j);
      }
    } else {
      var i, j :| 0 <= i < |columns| && 0 <= j < |columns| && FirstOfName(columns, i) && !FirstOfName(columns, j) &&
          Base(columns[i]) == Suffixed(columns[j]);
      SuffixedNameRepeats(columns, i, j);
    }
  }

  // Writing

  function FormatItem(fmt: Formats, json: Value -> string, v: Value): string {
    match v
    case Undefined => ""
    case Null => ""
    case Str(s) => s
    case Num(n) => fmt.showNumber(n)
    case Bool(b) => if b then "true" else "false"
    case _ => json(v)
  }

  function FormatItems(fmt: Formats, json: Value -> string, items: seq<Value>): (texts: seq<string>)
    ensures |texts| == |items| && forall i :: 0 <= i < |items| ==> texts[i] == FormatItem(fmt, json, items[i])
  {
    if items == [] then [] else [FormatItem(fmt, json, items[0])] + FormatItems(fmt, json, items[1..])
  }

  /** `json` is `JSON.stringify`. */
  function FormatValue(fmt: Formats, json: Value -> string, v: Value): string {
    if v.Arr? then Join(FormatItems(fmt, json, v.items), "; ") else FormatItem(fmt, json, v)
  }

  /** A participant with the stored values of the exported attributes. */
  datatype Person = Person(uuid: Id, email: string, values: map<Id, Value>)

  function Cell(fmt: Formats, json: Value -> string, column: Column, person: Person): string {
    if column.uuid in person.values then FormatValue(fmt, json, person.values[column.uuid]) else ""
  }

  function HeaderRow(columns: seq<Column>): seq<string> {
    ["participantUuid", "email"] + Headers(columns)
  }

  function PersonRow(fmt: Formats, json: Value -> string, columns: seq<Column>, person: Person): seq<string> {
    [person.uuid, person.email] + seq(|columns|, i requires 0 <= i < |columns| => Cell(fmt, json, columns[i], person))
  }

  function ExportSheet(fmt: Formats, json: Value -> string, columns: seq<Column>, people: seq<Person>): Sheet {
    [HeaderRow(columns)] + seq(|people|, i requires 0 <= i < |people| => PersonRow(fmt, json, columns, people[i]))
  }

  method Build(fmt: Formats, json: Value -> string, columns: seq<Column>, people: seq<Person>) returns (sheet: Sheet)
    ensures sheet == ExportSheet(fmt, json, columns, people)
  {
    var headers := BuildAttributeHeaders(columns);
    sheet := [["participantUuid", "email"] + headers];
    for i := 0 to |people|
      invariant |sheet| == i + 1 && sheet[0] == HeaderRow(columns)
      invariant forall j :: 0 <= j < i ==> sheet[j + 1] == PersonRow(fmt, json, columns, people[j])
    {
      sheet := sheet + [[people[i].uuid, people[i].email]
        + seq(|columns|, k requires 0 <= k < |columns| => Cell(fmt, json, columns[k], people[i]))];
    }
  }

  // Reading

  const MAX_IMPORT_PARTICIPANTS := 2000

  datatype Dto = Dto(email: string, attributes: seq<Entry>)

  /** The id of the last column with that header. */
  function ColumnOf(columns: seq<Column>, headers: seq<string>, header: string, n: nat): Option<Id>
    requires n <= |columns| == |headers|
  {
    if n == 0 then None
    else if headers[n - 1] == header then Some(columns[n - 1].uuid)
    else ColumnOf(columns, headers, header, n - 1)
  }

  /** A column named like "email" or "participantUuid", in any case, is keyed by its own header. */
  function KeyFor(fmt: Formats, columns: seq<Column>, header: string): Option<string> {
    if fmt.lower(header) in {"email", "participantuuid"} then Some(header)
      else ColumnOf(columns, Headers(columns), header, |columns|)
  }

  type Keys = seq<Option<string>>

  /** The keys of the first `n` header cells; a blank cell has none. */
  function ColumnKeys(fmt: Formats, columns: seq<Column>, cells: seq<string>, n: nat): (r: Result<Keys>)
    requires n <= |cells|
    ensures r.Ok? ==> |r.value| == n
  {
    if n == 0 then Ok([])
    else
      var before :- ColumnKeys(fmt, columns, cells, n - 1);
      var header := Trim(cells[n - 1]);
      if header == "" then Ok(before + [None])
      else
        var key := KeyFor(fmt, columns, header);
        if key.None? || key in before then Err(BadRequest) else Ok(before + [key])
  }

  /** One cell of a row. */
  function ReadCell(dto: Dto, key: Option<string>, cell: string): Dto {
    if key.None? || key.value == "participantUuid" || Trim(cell) == "" then dto
    else if key.value == "email" then dto.(email := Trim(cell))
    else dto.(attributes := dto.attributes + [(key.value, Str(Trim(cell)))])
  }

  function ReadCells(keys: Keys, cells: seq<string>, n: nat): Dto
    requires n <= |cells|
  {
    if n == 0 then Dto("", [])
    else ReadCell(ReadCells(keys, cells, n - 1), if n - 1 < |keys| then keys[n - 1] else None, cells[n - 1])
  }

  /** The first `n` rows below the header; rows without any value are passed over. */
  function ReadRows(keys: Keys, rows: seq<seq<string>>, n: nat): Result<seq<Dto>>
    requires n <= |rows|
  {
    if n == 0 then Ok([])
    else
      var before :- ReadRows(keys, rows, n - 1);
      var dto := ReadCells(keys, rows[n - 1], |rows[n - 1]|);
      if dto.email == "" && dto.attributes == [] then Ok(before)
      else if |before| >= MAX_IMPORT_PARTICIPANTS then Err(BadRequest)
      else Ok(before + [dto])
  }

  /** `None` is a file that cannot be read. */
  function ParseSheet(fmt: Formats, columns: seq<Column>, file: Option<Sheet>): Result<seq<Dto>> {
    if file.None? then Err(BadRequest)
    else if file.value == [] then Ok([])
    else
      var cells := file.value[0];
      var keys :- ColumnKeys(fmt, columns, cells, |cells|);
      if Some("email") !in keys then Err(BadRequest)
      else ReadRows(keys, file.value[1..], |file.value| - 1)
  }

  /** The expected headers, each with the id of its last column. */
  method ExpectedHeaders(columns: seq<Column>) returns (expected: map<string, Id>)
    ensures forall header :: header in expected <==> ColumnOf(columns, Headers(columns), header, |columns|).Some?
    ensures forall header :: header in expected ==>
        ColumnOf(columns, Headers(columns), header, |columns|) == Some(expected[header])
  {
    var headers := BuildAttributeHeaders(columns);
    expected := map[];
    for i := 0 to |headers|
      invariant forall header :: header in expected <==> ColumnOf(columns, headers, header, i).Some?
      invariant forall header :: header in expected ==> ColumnOf(columns, headers, header, i) == Some(expected[header])
    {
      expected := expected[headers[i] := columns[i].uuid];
    }
  }

  /** The keys of the header cells; an unknown or repeated header is refused. */
  method ReadHeaderRow(fmt: Formats, columns: seq<Column>, cells: seq<string>) returns (r: Result<Keys>)
    ensures r == ColumnKeys(fmt, columns, cells, |cells|)
  {
    var expected := ExpectedHeaders(columns);
    var keys: Keys, seen: set<string> := [], {};
    for i := 0 to |cells|
      invariant ColumnKeys(fmt, columns, cells, i) == Ok(keys)
      invariant forall key :: key in seen <==> Some(key) in keys
    {
      var header := Trim(cells[i]);
      if header == "" {
        keys := keys + [None];
      } else {
        var key := if fmt.lower(header) == "email" || fmt.lower(header) == "participantuuid" then Some(header)
                   else if header in expected then Some(expected[header]) else None;
        assert key == KeyFor(fmt, columns, header);
        if key.None? || key.value in seen {
          FailedKeys(fmt, columns, cells, i + 1, |cells|);
          return Err(BadRequest);
        }
        seen := seen + {key.value};
        keys := keys + [key];
      }
    }
    return Ok(keys);
  }

  method ParseXlsxToDto(fmt: Formats, columns: seq<Column>, file: Option<Sheet>) returns (r: Result<seq<Dto>>)
    ensures r == ParseSheet(fmt, columns, file)
  {
    if file.None? {
      return Err(BadRequest);
    }
    var sheet := file.value;
    if sheet == [] {
      return Ok([]);
    }
    var keys := ReadHeaderRow(fmt, columns, sheet[0]);
    if keys.Err? {
      return Err(keys.error);
    }
    if Some("email") !in keys.value {
      return Err(BadRequest);
    }
    r := ReadSheetRows(keys.value, sheet[1..]);
  }

  lemma {:induction false} FailedKeys(fmt: Formats, columns: seq<Column>, cells: seq<string>, n: nat, m: nat)
    requires n <= m <= |cells| && ColumnKeys(fmt, columns, cells, n) == Err(BadRequest)
    ensures ColumnKeys(fmt, columns, cells, m) == Err(BadRequest)
    decreases m
  {
    if n < m {
      FailedKeys(fmt, columns, cells, n, m - 1);
    }
  }

  method ReadSheetRows(keys: Keys, rows: seq<seq<string>>) returns (r: Result<seq<Dto>>)
    ensures r == ReadRows(keys, rows, |rows|)
  {
    var dtos: seq<Dto> := [];
    for i := 0 to |rows|
      invariant ReadRows(keys, rows, i) == Ok(dtos)
    {
      var row := rows[i];
      var dto := Dto("", []);
      for j := 0 to |row|
        invariant dto == ReadCells(keys, row, j)
      {
        if j < |keys| && keys[j].Some? && keys[j].value != "participantUuid" {
          var cell := Trim(row[j]);
          if cell != "" {
            if keys[j].value == "email" {
              dto := dto.(email := cell);
            } else {
              dto := dto.(attributes := dto.attributes + [(keys[j].value, Str(cell))]);
            }
          }
        }
      }
      if dto.email != "" || dto.attributes != [] {
        if |dtos| >= MAX_IMPORT_PARTICIPANTS {
          FailedRows(keys, rows, i + 1, |rows|);
          return Err(BadRequest);
        }
        dtos := dtos + [dto];
      }
    }
    return Ok(dtos);
  }

  lemma {:induction false} FailedRows(keys: Keys, rows: seq<seq<string>>, n: nat, m: nat)
    requires n <= m <= |rows| && ReadRows(keys, rows, n) == Err(BadRequest)
    ensures ReadRows(keys, rows, m) == Err(BadRequest)
    decreases m
  {
    if n < m {
      FailedRows(keys, rows, n, m - 1);
    }
  }
}
