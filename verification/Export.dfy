/** Exporting participants: which of them are written, and with which stored values. */
module Export {
  import opened Wrappers
  import opened Text
  import opened Values
  import opened Normalizer
  import opened Store
  import opened Sheets

  /** All participants of the event, or those of `chosen` if any are chosen. */
  predicate Selected(db: Db, event: Id, chosen: set<Id>, p: Id) {
    p in db.participants && db.participants[p].event == event && (chosen == {} || p in chosen)
  }

  /** What the query for participants returns: each selected one once, in some order. */
  ghost predicate Selects(db: Db, event: Id, chosen: set<Id>, order: seq<Id>) {
    && Distinct(order)
    && (forall i :: 0 <= i < |order| ==> Selected(db, event, chosen, order[i]))
    && forall p :: Selected(db, event, chosen, p) ==> p in order
  }

  function Ids(columns: seq<Column>): set<Id> {
    set i | 0 <= i < |columns| :: columns[i].uuid
  }

  /** The participant with the stored values of the exported attributes. */
  function PersonOf(db: Db, columns: seq<Column>, p: Id): Person
    requires p in db.participants
  {
    Person(p, db.participants[p].email, map a | a in Ids(columns) && (p, a) in db.rows :: db.rows[(p, a)])
  }

  function People(db: Db, columns: seq<Column>, order: seq<Id>): (people: seq<Person>)
    requires forall i :: 0 <= i < |order| ==> order[i] in db.participants
    ensures |people| == |order| && forall i :: 0 <= i < |order| ==> people[i] == PersonOf(db, columns, order[i])
  {
    seq(|order|, i requires 0 <= i < |order| => PersonOf(db, columns, order[i]))
  }

  // Which attributes become columns

  /** The positions of the chosen ones among the first `n` columns. */
  function Positions(all: seq<Column>, chosen: set<Id>, n: nat): (at: seq<nat>)
    requires n <= |all|
    ensures forall i :: 0 <= i < |at| ==> at[i] < n && all[at[i]].uuid in chosen
    ensures forall i, j :: 0 <= i < j < |at| ==> at[i] < at[j]
    ensures forall p :: 0 <= p < n && all[p].uuid in chosen ==> p in at
  {
    if n == 0 then []
    else
      var before := Positions(all, chosen, n - 1);
      if all[n - 1].uuid in chosen then before + [n - 1] else before
  }

  /** The chosen columns, in the order of the event's attributes. */
  function Choose(all: seq<Column>, chosen: set<Id>): (columns: seq<Column>)
    ensures var at := Positions(all, chosen, |all|);
      |columns| == |at| && forall i :: 0 <= i < |at| ==> columns[i] == all[at[i]]
  {
    var at := Positions(all, chosen, |all|);
    seq(|at|, i requires 0 <= i < |at| => all[at[i]])
  }

  function ChosenBefore(all: seq<Column>, chosen: set<Id>, n: nat): set<Id>
    requires n <= |all|
  {
    set i | 0 <= i < n && all[i].uuid in chosen :: all[i].uuid
  }

  lemma ChosenNext(all: seq<Column>, chosen: set<Id>, n: nat)
    requires DistinctIds(all) && n < |all|
    ensures all[n].uuid !in ChosenBefore(all, chosen, n)
    ensures ChosenBefore(all, chosen, n + 1)
         == ChosenBefore(all, chosen, n) + if all[n].uuid in chosen then {all[n].uuid} else {}
  {
  }

  lemma {:induction false} PositionsCount(all: seq<Column>, chosen: set<Id>, n: nat)
    requires DistinctIds(all) && n <= |all|
    ensures |Positions(all, chosen, n)| == |ChosenBefore(all, chosen, n)|
  {
    if n > 0 {
      hide ChosenBefore;
      PositionsCount(all, chosen, n - 1);
      ChosenNext(all, chosen, n - 1);
    } else {
      assert ChosenBefore(all, chosen, 0) == {};
    }
  }

  /** No ids choose all columns. */
  function ChosenIds(fmt: Formats, all: seq<Column>, ids: seq<IdText>): set<Id> {
    if ids == [] then Ids(all) else set id | id in UuidValues(fmt, ids)
  }

  method ResolveAttributes(fmt: Formats, all: seq<Column>, ids: seq<IdText>) returns (r: Result<seq<Column>>)
    requires DistinctIds(all)
    ensures if NamesEach(fmt, ids, Ids(all)) then r == Ok(Choose(all, ChosenIds(fmt, all, ids)))
      else r == Err(BadRequest)
  {
    var unique := Deduplicate(ids);
    DeduplicatedNamesEach(fmt, ids, unique, Ids(all));
    var columns := Choose(all, ChosenIds(fmt, all, ids));
    if ids != [] {
      ChosenCount(fmt, all, ids, unique);
      if |columns| != |unique| {
        return Err(BadRequest);
      }
    }
    return Ok(columns);
  }

  lemma ChosenCount(fmt: Formats, all: seq<Column>, ids: seq<IdText>, unique: seq<IdText>)
    requires DistinctIds(all) && ids != [] && forall x :: x in unique <==> x in ids
    ensures |Choose(all, ChosenIds(fmt, all, ids))| == CountMatching(UuidValues(fmt, unique), Ids(all))
  {
    PositionsCount(all, ChosenIds(fmt, all, ids), |all|);
    forall id ensures id in UuidValues(fmt, unique) <==> id in UuidValues(fmt, ids) {
      SameValues(fmt, unique, ids, id);
      SameValues(fmt, ids, unique, id);
    }
    assert ChosenBefore(all, ChosenIds(fmt, all, ids), |all|) == set id | id in UuidValues(fmt, unique) &&
        id in Ids(all);
  }

  lemma SameValues(fmt: Formats, x: seq<IdText>, y: seq<IdText>, id: Id)
    requires forall t :: t in x ==> t in y
    ensures id in UuidValues(fmt, x) ==> id in UuidValues(fmt, y)
  {
    if id in UuidValues(fmt, x) {
      var i :| 0 <= i < |x| && UuidValues(fmt, x)[i] == id;
      assert x[i] in y;
      var j :| 0 <= j < |y| && y[j] == x[i];
      assert UuidValues(fmt, y)[j] == id;
    }
  }

  /** `all` are the columns of the event's attributes, `order` what the query for the selected participants returns. */
  method ExportParticipants(cat: Catalog, json: Value -> string, db: Db, event: Id, participants: seq<IdText>,
                            all: seq<Column>, attributes: seq<IdText>, order: seq<Id>)
    returns (r: Result<Sheet>)
    requires DistinctIds(all) && Selects(db, event, (set id | id in UuidValues(cat.fmt, participants)), order)
    ensures if event !in cat.events then r == Err(NotFound)
      else if !NamesEach(cat.fmt, participants, ParticipantsOf(db, event)) then r == Err(BadRequest)
      else if !NamesEach(cat.fmt, attributes, Ids(all)) then r == Err(BadRequest)
      else
        var columns := Choose(all, ChosenIds(cat.fmt, all, attributes));
        r == Ok(ExportSheet(cat.fmt, json, columns, People(db, columns, order)))
  {
    if event !in cat.events {
      return Err(NotFound);
    }
    var unique := Deduplicate(participants);
    DeduplicatedNamesEach(cat.fmt, participants, unique, ParticipantsOf(db, event));
    if CountMatching(UuidValues(cat.fmt, unique), ParticipantsOf(db, event)) != |unique| {
      return Err(BadRequest);
    }
    var columns :- ResolveAttributes(cat.fmt, all, attributes);
    var sheet := Build(cat.fmt, json, columns, People(db, columns, order));
    return Ok(sheet);
  }

  // What the columns' headers are taken for

  predicate FirstChosen(all: seq<Column>, chosen: set<Id>, p: nat)
    requires p < |all|
  {
    forall q :: 0 <= q < p && Base(all[q]) == Base(all[p]) ==> all[q].uuid !in chosen
  }

  /** First of its name among the chosen columns but not in the event: the column is written without its suffix. */
  predicate Misread(all: seq<Column>, chosen: set<Id>, p: nat)
    requires p < |all|
  {
    all[p].uuid in chosen && FirstChosen(all, chosen, p) && !FirstOfName(all, p)
  }

  lemma FirstChosenOfName(all: seq<Column>, chosen: set<Id>, i: nat)
    requires i < |Choose(all, chosen)|
    ensures FirstOfName(Choose(all, chosen), i) <==> FirstChosen(all, chosen, Positions(all, chosen, |all|)[i])
  {
    var at, columns := Positions(all, chosen, |all|), Choose(all, chosen);
    var p := at[i];
    if FirstOfName(columns, i) {
      forall q | 0 <= q < p && Base(all[q]) == Base(all[p]) ensures all[q].uuid !in chosen {
      }
    } else {
      var j :| 0 <= j < i && Base(columns[j]) == Base(columns[i]);
      assert at[j] < p && all[at[j]].uuid in chosen;
    }
  }

  lemma {:induction false} FirstNamed(all: seq<Column>, p: nat) returns (f: nat)
    requires p < |all|
    ensures f <= p && Base(all[f]) == Base(all[p]) && FirstOfName(all, f)
  {
    if FirstOfName(all, p) {
      f := p;
    } else {
      var q :| 0 <= q < p && Base(all[q]) == Base(all[p]);
      f := FirstNamed(all, q);
    }
  }

  /** The event's columns: ids of one length, and no name that reads like a suffixed header. */
  predicate NamesOk(all: seq<Column>) {
    DistinctIds(all) && NoNameIsSuffixed(all) && forall p :: 0 <= p < |all| ==> |all[p].uuid| == 36
  }

  lemma {:induction false} HeaderFindsColumn(columns: seq<Column>, headers: seq<string>, i: nat, n: nat)
    requires i < n <= |columns| == |headers| && Distinct(headers)
    ensures ColumnOf(columns, headers, headers[i], n) == Some(columns[i].uuid)
  {
    if i < n - 1 {
      assert headers[i] != headers[n - 1];
      HeaderFindsColumn(columns, headers, i, n - 1);
    }
  }

  lemma HeaderKey(fmt: Formats, all: seq<Column>, p: nat, header: string)
    requires p < |all| && HeaderAt(all, p) == header && NamesOk(all)
    requires fmt.lower(header) !in {"email", "participantuuid"}
    ensures KeyFor(fmt, all, header) == Some(all[p].uuid)
  {
    HeadersAreDistinctExactly(all);
    assert Headers(all)[p] == header;
    HeaderFindsColumn(all, Headers(all), p, |all|);
  }

  /** The column that the header of an exported column is read as: another one exactly when it is misread. */
  lemma ReadAs(fmt: Formats, all: seq<Column>, chosen: set<Id>, i: nat) returns (q: nat)
    requires NamesOk(all) && i < |Choose(all, chosen)|
    requires fmt.lower(HeaderAt(Choose(all, chosen), i)) !in {"email", "participantuuid"}
    ensures var p, columns := Positions(all, chosen, |all|)[i], Choose(all, chosen);
      && q < |all| && KeyFor(fmt, all, HeaderAt(columns, i)) == Some(all[q].uuid) && Base(all[q]) == Base(columns[i])
      && (q == p <==> !Misread(all, chosen, p))
      && (q != p ==> all[q].uuid !in chosen && FirstOfName(columns, i))
  {
    var p, columns := Positions(all, chosen, |all|)[i], Choose(all, chosen);
    FirstChosenOfName(all, chosen, i);
    if FirstOfName(columns, i) {
      q := FirstNamed(all, p);
    } else {
      q := p;
    }
    HeaderKey(fmt, all, q, HeaderAt(columns, i));
  }

  /** Two attributes of one name, of which the second is exported alone: its column is taken for the first. */
  lemma SecondOfNameIsMisread(fmt: Formats, name: string, first: Id, second: Id)
    requires first != second && |first| == |second| == 36 && fmt.lower(name) !in {"email", "participantuuid"}
    requires Trim(name) != ""
    ensures var all := [Column(first, name), Column(second, name)];
      && Choose(all, {second}) == [Column(second, name)] && Misread(all, {second}, 1)
      && HeaderAt(Choose(all, {second}), 0) == name && KeyFor(fmt, all, name) == Some(first)
  {
    var all := [Column(first, name), Column(second, name)];
    assert Positions(all, {second}, 0) == [] && Positions(all, {second}, 1) == [];
    assert Positions(all, {second}, 2) == [1];
    assert Choose(all, {second}) == [Column(second, name)];
    assert Base(all[0]) == Base(all[1]) == name;
    assert HeaderAt(all, 0) == name;
    NotSuffixed(all, name);
    HeaderKey(fmt, all, 0, name);
  }

  lemma NotSuffixed(all: seq<Column>, name: string)
    requires forall p :: 0 <= p < |all| ==> Base(all[p]) == name
    ensures NoNameIsSuffixed(all)
  {
    forall c | 0 <= c < |all| ensures |Suffixed(all[c])| > |name| {
    }
  }
}
