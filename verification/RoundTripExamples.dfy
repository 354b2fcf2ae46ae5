/** A store that is exported and imported: it comes back, unless a column is written under another's header. */
module RoundTripExamples {
  import opened Wrappers
  import opened Text
  import opened Values
  import opened Normalizer
  import opened Store
  import opened Ownership
  import opened StoreRuns
  import opened Sheets
  import opened Import
  import opened Export
  import opened RoundTrip

  /** The only numeral is "5"; a text of 36 characters is an id. */
  const PLAIN := Formats(
    s => |s| == 36, s => s, _ => true, _ => true, _ => true,
    s => if s == "participantUuid" then "participantuuid" else s,
    s => if s == "5" then Finite(5.0) else NaN, _ => "5")

  const AGE := Attribute("e", NumberType, Null)

  /** An event with two number attributes. */
  function TwoNumbers(first: Id, second: Id): Catalog {
    Catalog(PLAIN, "https://files/", map["e" := Event(None, None)], map[], map[first := AGE, second := AGE], map[])
  }

  /** They have one name. */
  function Columns(first: Id, second: Id): seq<Column> {
    [Column(first, "Age"), Column(second, "Age")]
  }

  predicate AreIds(first: Id, second: Id) {
    first != second && |first| == |second| == 36
  }

  const FIVE := Num(Finite(5.0))

  /** Participant "p" has a value of the second attribute. */
  function HasFive(second: Id): Db {
    Db(map["p" := Participant("e", "p@e")], map[("p", second) := FIVE], map[], {})
  }

  const EMPTY := Db(map[], map[], map[], {})

  lemma LibraryIsOk()
    ensures LibraryOk(PLAIN)
  {
  }

  lemma CatalogIsOk(first: Id, second: Id)
    requires AreIds(first, second)
    ensures CatalogOk(TwoNumbers(first, second))
  {
  }

  lemma FiveIsNormal(first: Id, second: Id)
    requires AreIds(first, second)
    ensures IsNormal(TwoNumbers(first, second), second, FIVE) && CellSafe(PLAIN, FIVE)
  {
    assert Trimmed("5");
    TrimIsProjection("5");
  }

  lemma StoreIsSound(first: Id, second: Id)
    requires AreIds(first, second)
    ensures StoreOk(TwoNumbers(first, second), HasFive(second))
  {
    hide IsNormal;
    FiveIsNormal(first, second);
    forall o, x ensures !Owns(TwoNumbers(first, second), HasFive(second), o, x) {
      assert !IsFileAttribute(TwoNumbers(first, second), second);
    }
  }

  lemma TwoPositions(all: seq<Column>, chosen: set<Id>)
    requires |all| == 2
    ensures Positions(all, chosen, 2) ==
        (if all[0].uuid in chosen then [0] else []) + if all[1].uuid in chosen then [1] else []
  {
    assert Positions(all, chosen, 0) == [];
    assert Positions(all, chosen, 1) == if all[0].uuid in chosen then [0] else [];
  }

  lemma ChosenPositions(first: Id, second: Id)
    requires AreIds(first, second)
    ensures Positions(Columns(first, second), {first, second}, 2) == [0, 1]
    ensures Positions(Columns(first, second), {second}, 2) == [1]
  {
    hide Positions;
    TwoPositions(Columns(first, second), {first, second});
    TwoPositions(Columns(first, second), {second});
  }

  lemma BothColumns(first: Id, second: Id)
    requires AreIds(first, second)
    ensures var all, both := Columns(first, second), {first, second};
      Choose(all, both) == all && !Misread(all, both, 0) && !Misread(all, both, 1)
  {
    hide Positions;
    hide Trim;
    var all, both := Columns(first, second), {first, second};
    ChosenPositions(first, second);
    NamedAge(first, second);
    assert all[0].uuid in both;
    assert Choose(all, both) == all;
  }

  lemma SecondColumn(first: Id, second: Id)
    requires AreIds(first, second)
    ensures var all := Columns(first, second);
      Choose(all, {second}) == [all[1]] && !Misread(all, {second}, 0) && Misread(all, {second}, 1)
  {
    hide Positions;
    hide Trim;
    var all := Columns(first, second);
    ChosenPositions(first, second);
    NamedAge(first, second);
    assert Choose(all, {second}) == [all[1]];
  }

  /** Both columns, or the second alone. */
  predicate Exported(first: Id, second: Id, chosen: set<Id>) {
    chosen == {first, second} || chosen == {second}
  }

  lemma NamedAge(first: Id, second: Id)
    ensures Base(Columns(first, second)[0]) == Base(Columns(first, second)[1]) == "Age" && Trimmed("Age")
  {
  }

  lemma ColumnsAreOk(first: Id, second: Id, columns: seq<Column>)
    requires AreIds(first, second) && (columns == Columns(first, second) || columns == [Columns(first, second)[1]])
    ensures NamesOk(Columns(first, second)) && HeadersOk(PLAIN, columns)
    ensures ColumnsOk(TwoNumbers(first, second), "e", map[], columns)
  {
    hide Headers;
    hide Trim;
    NamedAge(first, second);
    NotSuffixed(Columns(first, second), "Age");
  }

  lemma PersonIsOk(first: Id, second: Id, columns: seq<Column>)
    requires AreIds(first, second) && (columns == Columns(first, second) || columns == [Columns(first, second)[1]])
    ensures Exportable(TwoNumbers(first, second), HasFive(second), columns, "p")
    ensures AddressesApart(TwoNumbers(first, second), HasFive(second), EMPTY, "e", ["p"])
  {
    hide CellSafe;
    TrimIsProjection("p@e");
    FiveIsNormal(first, second);
  }

  lemma FiveIsStored(second: Id)
    ensures HasStored(HasFive(second), ("p", second))
  {
  }

  lemma FiveIsMisread(first: Id, second: Id, chosen: set<Id>)
    requires AreIds(first, second) && Exported(first, second, chosen)
    ensures var all := Columns(first, second);
      && Choose(all, chosen) == (if first in chosen then all else [all[1]])
      && (NothingMisread(HasFive(second), all, chosen, "p") <==> first in chosen)
  {
    hide Misread;
    hide Choose;
    hide HasFive;
    hide HasStored;
    var all := Columns(first, second);
    assert |all| == 2 && all[1].uuid == second;
    FiveIsStored(second);
    if chosen == {second} {
      SecondColumn(first, second);
    } else {
      BothColumns(first, second);
    }
  }

  lemma TransferIsOk(first: Id, second: Id, chosen: set<Id>)
    requires AreIds(first, second) && Exported(first, second, chosen)
    ensures TransferOk(TwoNumbers(first, second), HasFive(second), "e", Columns(first, second), chosen, ["p"], EMPTY,
                       map[])
  {
    hide NamesOk;
    hide HeadersOk;
    hide ColumnsOk;
    hide Exportable;
    hide AddressesApart;
    hide NothingMisread;
    FiveIsMisread(first, second, chosen);
    ColumnsAreOk(first, second, Choose(Columns(first, second), chosen));
    PersonIsOk(first, second, Choose(Columns(first, second), chosen));
  }

  /** What the import of the exported sheet makes of the one participant. */
  ghost predicate ComesBackAs(first: Id, second: Id, json: Value -> string, chosen: set<Id>, restored: bool) {
    var all, db := Columns(first, second), HasFive(second);
    var columns := Choose(all, chosen);
    var parsed := ParseSheet(PLAIN, all, Some(ExportSheet(PLAIN, json, columns, People(db, columns, ["p"]))));
    && parsed.Ok? && |parsed.value| == 1
    && var imported := ImportAll(TwoNumbers(first, second), EMPTY, "e", map[], parsed.value, ["x"]);
       && imported.Ok? && |imported.value.outcomes| == 1
       && var after := imported.value;
          Restored(TwoNumbers(first, second), db, columns, "p", "x", after.outcomes[0], after.db.rows) == restored
  }

  /** Exported with both columns the participant is restored; exported with the second alone it is not. */
  lemma RestoredWithBothColumns(first: Id, second: Id, json: Value -> string)
    requires AreIds(first, second)
    ensures ComesBackAs(first, second, json, {first, second}, true)
    ensures ComesBackAs(first, second, json, {second}, false)
  {
    hide ComesBackAs;
    OneTransfer(first, second, json, {first, second});
    OneTransfer(first, second, json, {second});
  }

  lemma OneTransfer(first: Id, second: Id, json: Value -> string, chosen: set<Id>)
    requires AreIds(first, second) && Exported(first, second, chosen)
    ensures ComesBackAs(first, second, json, chosen, first in chosen)
  {
    hide TransferOk;
    hide Restored;
    hide LibraryOk;
    hide CatalogOk;
    hide StoreOk;
    hide NothingMisread;
    hide ParseSheet;
    hide ExportSheet;
    hide Choose;
    hide ImportRow;
    LibraryIsOk();
    CatalogIsOk(first, second);
    StoreIsSound(first, second);
    TransferIsOk(first, second, chosen);
    FiveIsMisread(first, second, chosen);
    ExportThenImport(TwoNumbers(first, second), json, HasFive(second), "e", Columns(first, second), chosen, {}, ["p"],
        EMPTY, map[], ["x"], 0);
  }
}
