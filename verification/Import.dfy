/** Importing participants: every row is registered or skipped with a reason, one transaction a row. */
module Import {
  import opened Wrappers
  import opened Text
  import opened Values
  import opened Store
  import opened EventStore
  import opened Sheets

  // Block names

  datatype NamedBlock = NamedBlock(id: Id, name: string, attribute: Option<Id>)

  /** The blocks of each block attribute, by trimmed name. */
  type BlockIndex = map<Id, map<string, seq<Id>>>

  /** The blocks of an attribute with a trimmed name, in order. */
  function NamedIds(blocks: seq<NamedBlock>, a: Id, name: string): seq<Id> {
    if blocks == [] then []
    else
      var last := blocks[|blocks| - 1];
      NamedIds(blocks[..|blocks| - 1], a, name) +
          if last.attribute == Some(a) && Trim(last.name) == name then [last.id] else []
  }

  function Matches(index: BlockIndex, a: Id, name: string): seq<Id> {
    if a in index && name in index[a] then index[a][name] else []
  }

  function Add(index: BlockIndex, a: Id, name: string, id: Id): BlockIndex {
    var byName := if a in index then index[a] else map[];
    index[a := byName[name := (if name in byName then byName[name] else []) + [id]]]
  }

  lemma AddMatches(index: BlockIndex, a: Id, name: string, id: Id, c: Id, other: string)
    ensures Matches(Add(index, a, name, id), c, other) == Matches(index, c, other) +
        if c == a && other == name then [id] else []
  {
  }

  lemma NamedIdsNext(blocks: seq<NamedBlock>, i: nat, a: Id, name: string)
    requires i < |blocks|
    ensures NamedIds(blocks[..i + 1], a, name) == NamedIds(blocks[..i], a, name)
      + if blocks[i].attribute == Some(a) && Trim(blocks[i].name) == name then [blocks[i].id] else []
  {
    var next := blocks[..i + 1];
    assert |next| == i + 1 && next[i] == blocks[i] && next[..i] == blocks[..i];
  }

  ghost predicate Indexed(index: BlockIndex, blocks: seq<NamedBlock>) {
    forall a, name :: Matches(index, a, name) == NamedIds(blocks, a, name)
  }

  method BuildBlockNameIndex(blocks: seq<NamedBlock>) returns (index: BlockIndex)
    ensures Indexed(index, blocks)
    ensures forall a :: a in index <==> exists i :: 0 <= i < |blocks| && blocks[i].attribute == Some(a)
  {
    index := map[];
    for i := 0 to |blocks|
      invariant Indexed(index, blocks[..i])
      invariant forall a :: a in index <==> exists j :: 0 <= j < i && blocks[j].attribute == Some(a)
    {
      var block := blocks[i];
      ghost var before := index;
      if block.attribute.Some? {
        index := Add(index, block.attribute.value, Trim(block.name), block.id);
      }
      forall a, name ensures Matches(index, a, name) == NamedIds(blocks[..i + 1], a, name) {
        NamedIdsNext(blocks, i, a, name);
        if block.attribute.Some? {
          AddMatches(before, block.attribute.value, Trim(block.name), block.id, a, name);
        }
      }
    }
    assert blocks[..|blocks|] == blocks;
  }

  function NonEmptyTexts(texts: seq<string>): seq<string> {
    if texts == [] then []
    else (if texts[0] == "" then [] else [texts[0]]) + NonEmptyTexts(texts[1..])
  }

  function ResolveNames(index: BlockIndex, a: Id, names: seq<string>): Result<seq<Id>> {
    if names == [] then Ok([])
    else if |Matches(index, a, names[0])| != 1 then Err(BadRequest)
    else
      var rest :- ResolveNames(index, a, names[1..]);
      Ok([Matches(index, a, names[0])[0]] + rest)
  }

  /** Each name is the name of exactly one block, the one at its position in `ids`. */
  predicate NamesOne(index: BlockIndex, a: Id, names: seq<string>, ids: seq<Id>) {
    |ids| == |names| && forall i :: 0 <= i < |names| ==> Matches(index, a, names[i]) == [ids[i]]
  }

  lemma NamesOneStep(index: BlockIndex, a: Id, names: seq<string>, ids: seq<Id>)
    requires names != [] && ids != []
    ensures NamesOne(index, a, names, ids) <==>
        Matches(index, a, names[0]) == [ids[0]] && NamesOne(index, a, names[1..], ids[1..])
  {
    if Matches(index, a, names[0]) == [ids[0]] && NamesOne(index, a, names[1..], ids[1..]) {
      forall i | 0 <= i < |names| ensures Matches(index, a, names[i]) == [ids[i]] {
        if i > 0 {
          assert Matches(index, a, names[1..][i - 1]) == [ids[1..][i - 1]];
        }
      }
    }
  }

  /** Names resolve exactly when each is the name of one block. */
  lemma {:induction false} NamesResolveExactly(index: BlockIndex, a: Id, names: seq<string>, ids: seq<Id>)
    ensures ResolveNames(index, a, names) == Ok(ids) <==> NamesOne(index, a, names, ids)
  {
    if names != [] && ids != [] {
      NamesResolveExactly(index, a, names[1..], ids[1..]);
      NamesOneStep(index, a, names, ids);
      assert ids == [ids[0]] + ids[1..];
    }
  }

  function ResolveEntry(index: BlockIndex, entry: Entry): Result<Entry> {
    if entry.0 !in index || !entry.1.Str? then Ok(entry)
    else
      var ids :- ResolveNames(index, entry.0, NonEmptyTexts(TrimAll(Split(entry.1.s, ';'))));
      Ok((entry.0, Str(Join(ids, ";"))))
  }

  function ResolveBlockNames(index: BlockIndex, entries: seq<Entry>): Result<seq<Entry>> {
    if entries == [] then Ok([])
    else
      var first :- ResolveEntry(index, entries[0]);
      var rest :- ResolveBlockNames(index, entries[1..]);
      Ok([first] + rest)
  }

  // Rows

  datatype Reason = DuplicateInFile | AlreadyExists | Failed

  datatype Outcome = Imported(id: Id, email: string) | Skipped(email: string, reason: Reason)

  datatype Progress = Progress(db: Db, outcomes: seq<Outcome>)

  function Address(fmt: Formats, dto: Dto): string {
    fmt.lower(Trim(dto.email))
  }

  /** The first row with its address, and the address is one. */
  predicate FirstValid(fmt: Formats, dtos: seq<Dto>, i: nat)
    requires i < |dtos|
  {
    fmt.isEmail(Address(fmt, dtos[i])) && forall j :: 0 <= j < i ==> Address(fmt, dtos[j]) != Address(fmt, dtos[i])
  }

  function SeenAddresses(fmt: Formats, dtos: seq<Dto>): set<string> {
    set i | 0 <= i < |dtos| && fmt.isEmail(Address(fmt, dtos[i])) :: Address(fmt, dtos[i])
  }

  /** The stored addresses among those seen, in lower case. */
  function StoredAddresses(fmt: Formats, participants: map<Id, Participant>, event: Id,
                           seen: set<string>): set<string>
  {
    set p | p in participants && participants[p].event == event &&
        participants[p].email in seen :: fmt.lower(participants[p].email)
  }

  function RegisterRow(cat: Catalog, db: Db, event: Id, index: BlockIndex, dto: Dto, id: Id): Result<Db>
    requires cat.prefix != ""
  {
    var entries :- ResolveBlockNames(index, dto.attributes);
    Register(cat, db, event, Address(cat.fmt, dto), entries, false, id)
  }

  function ImportRow(cat: Catalog, db: Db, event: Id, index: BlockIndex, stored: set<string>, dtos: seq<Dto>, i: nat,
                     id: Id): (Db, Outcome)
    requires cat.prefix != "" && i < |dtos|
  {
    var address := Address(cat.fmt, dtos[i]);
    if !cat.fmt.isEmail(address) then (db, Skipped(address, Failed))
    else if !FirstValid(cat.fmt, dtos, i) then (db, Skipped(address, DuplicateInFile))
    else if address in stored then (db, Skipped(address, AlreadyExists))
    else match RegisterRow(cat, db, event, index, dtos[i], id)
      case Ok(db') => (db', Imported(id, address))
      case Err(_) => (db, Skipped(address, Failed))
  }

  /** The first `n` rows; `ids` are the ids that new participants get. */
  function ImportRows(cat: Catalog, db: Db, event: Id, index: BlockIndex, dtos: seq<Dto>, ids: seq<Id>,
                      n: nat): (p: Progress)
    requires cat.prefix != "" && n <= |dtos| <= |ids|
    ensures |p.outcomes| == n
  {
    if n == 0 then Progress(db, [])
    else
      var before := ImportRows(cat, db, event, index, dtos, ids, n - 1);
      var stored := StoredAddresses(cat.fmt, db.participants, event, SeenAddresses(cat.fmt, dtos));
      var (db', outcome) := ImportRow(cat, before.db, event, index, stored, dtos, n - 1, ids[n - 1]);
      Progress(db', before.outcomes + [outcome])
  }

  function ImportAll(cat: Catalog, db: Db, event: Id, index: BlockIndex, dtos: seq<Dto>, ids: seq<Id>): Result<Progress>
    requires cat.prefix != "" && |dtos| <= |ids|
  {
    if |dtos| > MAX_IMPORT_PARTICIPANTS then Err(BadRequest)
      else Ok(ImportRows(cat, db, event, index, dtos, ids, |dtos|))
  }

  function ImportedOf(outcomes: seq<Outcome>): seq<(Id, string)> {
    if outcomes == [] then []
    else
      var last := outcomes[|outcomes| - 1];
      ImportedOf(outcomes[..|outcomes| - 1]) + if last.Imported? then [(last.id, last.email)] else []
  }

  function SkippedOf(outcomes: seq<Outcome>): seq<(string, Reason)> {
    if outcomes == [] then []
    else
      var last := outcomes[|outcomes| - 1];
      SkippedOf(outcomes[..|outcomes| - 1]) + if last.Skipped? then [(last.email, last.reason)] else []
  }

  /** Every row is listed once: the lists share the rows out and keep their order. */
  lemma {:induction false} RowsAreListedOnce(outcomes: seq<Outcome>, i: nat)
    requires i < |outcomes|
    ensures |ImportedOf(outcomes)| + |SkippedOf(outcomes)| == |outcomes|
    ensures ImportedOf(outcomes[..i]) <= ImportedOf(outcomes) && SkippedOf(outcomes[..i]) <= SkippedOf(outcomes)
    ensures match outcomes[i]
      case Imported(id, email) =>
        var at := |ImportedOf(outcomes[..i])|; at < |ImportedOf(outcomes)| && ImportedOf(outcomes)[at] == (id, email)
      case Skipped(email, reason) =>
        var at := |SkippedOf(outcomes[..i])|; at < |SkippedOf(outcomes)| && SkippedOf(outcomes)[at] == (email, reason)
    decreases outcomes
  {
    var rest := outcomes[..|outcomes| - 1];
    if i == |outcomes| - 1 {
      if i > 0 {
        RowsAreListedOnce(rest, 0);
      }
    } else {
      assert rest[..i] == outcomes[..i] && rest[i] == outcomes[i];
      RowsAreListedOnce(rest, i);
    }
  }

  lemma OneMore(outcomes: seq<Outcome>, o: Outcome)
    ensures ImportedOf(outcomes + [o]) == ImportedOf(outcomes) + if o.Imported? then [(o.id, o.email)] else []
    ensures SkippedOf(outcomes + [o]) == SkippedOf(outcomes) + if o.Skipped? then [(o.email, o.reason)] else []
  {
    assert (outcomes + [o])[..|outcomes|] == outcomes;
  }

  // The loops

  lemma SeenNext(fmt: Formats, dtos: seq<Dto>, i: nat)
    requires i < |dtos|
    ensures SeenAddresses(fmt, dtos[..i + 1])
         == SeenAddresses(fmt, dtos[..i]) + if fmt.isEmail(Address(fmt, dtos[i])) then {Address(fmt, dtos[i])} else {}
    ensures fmt.isEmail(Address(fmt, dtos[i])) ==>
        (FirstValid(fmt, dtos, i) <==> Address(fmt, dtos[i]) !in SeenAddresses(fmt, dtos[..i]))
  {
    hide Address;
    assert dtos[..i + 1] == dtos[..i] + [dtos[i]];
  }

  /** The rows, by position, whose address an earlier row has; and the valid addresses. */
  method FindDuplicates(fmt: Formats, dtos: seq<Dto>) returns (seen: set<string>, duplicates: set<nat>)
    ensures seen == SeenAddresses(fmt, dtos)
    ensures forall i :: 0 <= i < |dtos| ==>
        (i in duplicates <==> fmt.isEmail(Address(fmt, dtos[i])) && !FirstValid(fmt, dtos, i))
  {
    hide FirstValid;
    assert SeenAddresses(fmt, []) == {};
    hide SeenAddresses;
    seen, duplicates := {}, {};
    assert dtos[..|dtos|] == dtos;
    for i := 0 to |dtos|
      invariant seen == SeenAddresses(fmt, dtos[..i])
      invariant forall j :: 0 <= j < |dtos| ==>
          (j in duplicates <==> j < i && fmt.isEmail(Address(fmt, dtos[j])) && !FirstValid(fmt, dtos, j))
    {
      SeenNext(fmt, dtos, i);
      var email := Address(fmt, dtos[i]);
      if fmt.isEmail(email) {
        if email in seen {
          duplicates := duplicates + {i};
        } else {
          seen := seen + {email};
        }
      }
    }
  }

  class ImportService {
    const store: EventStore

    constructor (store: EventStore)
      ensures this.store == store
    {
      this.store := store;
    }

    method ProcessImport(event: Id, dtos: seq<Dto>, index: BlockIndex, ids: seq<Id>)
      returns (r: Result<()>, imported: seq<(Id, string)>, skipped: seq<(string, Reason)>)
      requires store.Valid() && |dtos| <= |ids| && FreshIds(store.Snapshot(), ids)
      modifies store
      ensures store.Valid()
      ensures match ImportAll(store.cat, old(store.Snapshot()), event, index, dtos, ids)
        case Ok(progress) =>
          && r == Ok(()) && store.Snapshot() == progress.db
          && imported == ImportedOf(progress.outcomes) && skipped == SkippedOf(progress.outcomes)
        case Err(e) => r == Err(e) && store.Snapshot() == old(store.Snapshot())
    {
      hide ImportRow;
      hide SeenAddresses;
      hide FirstValid;
      imported, skipped := [], [];
      if |dtos| > MAX_IMPORT_PARTICIPANTS {
        return Err(BadRequest), imported, skipped;
      }
      var seen, duplicates := FindDuplicates(store.cat.fmt, dtos);
      var existing := StoredAddresses(store.cat.fmt, store.participants, event, seen);
      ghost var db := store.Snapshot();
      ghost var outcomes: seq<Outcome> := [];
      for i := 0 to |dtos|
        invariant ImportRows(store.cat, db, event, index, dtos, ids, i) == Progress(store.Snapshot(), outcomes)
        invariant imported == ImportedOf(outcomes) && skipped == SkippedOf(outcomes)
        invariant store.Valid() && forall j :: i <= j < |ids| ==> ids[j] !in store.participants
      {
        var outcome := ProcessRow(event, dtos, index, existing, duplicates, i, ids[i]);
        OneMore(outcomes, outcome);
        outcomes := outcomes + [outcome];
        match outcome {
          case Imported(id, email) => imported := imported + [(id, email)];
          case Skipped(email, reason) => skipped := skipped + [(email, reason)];
        }
      }
      return Ok(()), imported, skipped;
    }

    method ProcessRow(event: Id, dtos: seq<Dto>, index: BlockIndex, existing: set<string>, duplicates: set<nat>, i: nat,
                      id: Id)
      returns (outcome: Outcome)
      requires store.Valid() && i < |dtos| && id !in store.participants
      requires i in duplicates <==>
          store.cat.fmt.isEmail(Address(store.cat.fmt, dtos[i])) && !FirstValid(store.cat.fmt, dtos, i)
      modifies store
      ensures store.Valid() && store.participants.Keys <= old(store.participants.Keys) + {id}
      ensures (store.Snapshot(), outcome)
          == ImportRow(store.cat, old(store.Snapshot()), event, index, existing, dtos, i, id)
    {
      var email := Address(store.cat.fmt, dtos[i]);
      if !store.cat.fmt.isEmail(email) {
        return Skipped(email, Failed);
      }
      if i in duplicates {
        return Skipped(email, DuplicateInFile);
      }
      if email in existing {
        return Skipped(email, AlreadyExists);
      }
      var entries := ResolveBlockNames(index, dtos[i].attributes);
      if entries.Err? {
        return Skipped(email, Failed);
      }
      var registered := store.Register(event, email, entries.value, false, id);
      if registered.Err? {
        return Skipped(email, Failed);
      }
      return Imported(id, email);
    }
  }

  // Which rows are imported

  /** Lowering the case twice is lowering it once. */
  ghost predicate LowersOnce(fmt: Formats) {
    forall s :: fmt.lower(fmt.lower(s)) == fmt.lower(s)
  }

  /** New ids: neither participants nor stored values carry them. */
  predicate FreshIds(db: Db, ids: seq<Id>) {
    && (forall i, j :: 0 <= i < j < |ids| ==> ids[i] != ids[j])
    && (forall i :: 0 <= i < |ids| ==> ids[i] !in db.participants)
    && forall k :: k in db.rows ==> k.0 !in ids
  }

  /** The values a row stores if it is registered. */
  function RowValues(cat: Catalog, rows: map<RowKey, Value>, event: Id, index: BlockIndex, dto: Dto): Result<seq<Entry>>
    requires cat.prefix != ""
  {
    var entries :- ResolveBlockNames(index, dto.attributes);
    Prepare(cat, rows, event, entries, false, None)
  }

  /**
   What a caller can check before the import: a first, valid, unknown address, columns that name attributes by their
   ids, and values that normalise.
   */
  predicate Acceptable(cat: Catalog, db: Db, event: Id, index: BlockIndex, dtos: seq<Dto>, i: nat)
    requires cat.prefix != "" && i < |dtos|
  {
    && event in cat.events
    && FirstValid(cat.fmt, dtos, i)
    && !EmailTaken(db.participants, event, Address(cat.fmt, dtos[i]), None)
    && var saved := RowValues(cat, db.rows, event, index, dtos[i]);
       saved.Ok? && DistinctKeys(saved.value)
  }

  lemma {:induction false} ResolvedKeys(index: BlockIndex, entries: seq<Entry>)
    requires ResolveBlockNames(index, entries).Ok?
    ensures |ResolveBlockNames(index, entries).value| == |entries|
    ensures forall j :: 0 <= j < |entries| ==> ResolveBlockNames(index, entries).value[j].0 == entries[j].0
  {
    if entries != [] {
      ResolvedKeys(index, entries[1..]);
    }
  }

  /** A column headed like "Email" is keyed by that text, which is no id: a row with a value in it is not imported. */
  lemma OddColumnIsRefused(cat: Catalog, db: Db, event: Id, index: BlockIndex, dtos: seq<Dto>, i: nat, j: nat)
    requires cat.prefix != "" && i < |dtos| && j < |dtos[i].attributes|
    requires !cat.fmt.isUuid(dtos[i].attributes[j].0)
    ensures !Acceptable(cat, db, event, index, dtos, i)
  {
    var entries := ResolveBlockNames(index, dtos[i].attributes);
    if entries.Ok? {
      ResolvedKeys(index, dtos[i].attributes);
      assert !KeysAreUuids(cat.fmt, entries.value);
    }
  }

  /** Why a row that is not acceptable is skipped. */
  function ReasonFor(cat: Catalog, db: Db, event: Id, dtos: seq<Dto>, i: nat): Reason
    requires i < |dtos|
  {
    if !cat.fmt.isEmail(Address(cat.fmt, dtos[i])) then Failed
    else if !FirstValid(cat.fmt, dtos, i) then DuplicateInFile
    else if EmailTaken(db.participants, event, Address(cat.fmt, dtos[i]), None) then AlreadyExists
    else Failed
  }

  lemma {:induction false} PrepareIgnoresRows(cat: Catalog, rows1: map<RowKey, Value>, rows2: map<RowKey, Value>,
                                              event: Id, entries: seq<Entry>)
    requires cat.prefix != ""
    ensures PrepareEach(cat, rows1, event, entries, false, None) == PrepareEach(cat, rows2, event, entries, false, None)
  {
    if entries != [] {
      PrepareIgnoresRows(cat, rows1, rows2, event, entries[1..]);
    }
  }

  lemma RowValuesIgnoreRows(cat: Catalog, rows1: map<RowKey, Value>, rows2: map<RowKey, Value>, event: Id,
                            index: BlockIndex, dto: Dto)
    requires cat.prefix != ""
    ensures RowValues(cat, rows1, event, index, dto) == RowValues(cat, rows2, event, index, dto)
  {
    var entries := ResolveBlockNames(index, dto.attributes);
    if entries.Ok? {
      PrepareIgnoresRows(cat, rows1, rows2, event, entries.value);
    }
  }

  /** The stored participants after some rows: those before, and the acceptable rows under their ids. */
  ghost predicate Grown(cat: Catalog, db: Db, event: Id, index: BlockIndex, dtos: seq<Dto>, ids: seq<Id>, n: nat,
                        db': Db)
    requires cat.prefix != "" && n <= |dtos| <= |ids|
  {
    && (forall p :: p in db.participants ==> p in db'.participants && db'.participants[p] == db.participants[p])
    && (forall i :: 0 <= i < n && Acceptable(cat, db, event, index, dtos, i) ==>
          ids[i] in db'.participants && db'.participants[ids[i]] == Participant(event, Address(cat.fmt, dtos[i])))
    && forall p :: p in db'.participants && p !in db.participants ==>
         exists i :: 0 <= i < n && ids[i] == p && Acceptable(cat, db, event, index, dtos, i)
  }

  lemma StoredMeansTaken(cat: Catalog, db: Db, event: Id, dtos: seq<Dto>, i: nat)
    requires LowersOnce(cat.fmt) && i < |dtos| && cat.fmt.isEmail(Address(cat.fmt, dtos[i]))
    ensures Address(cat.fmt, dtos[i]) in StoredAddresses(cat.fmt, db.participants, event, SeenAddresses(cat.fmt, dtos))
       <==> EmailTaken(db.participants, event, Address(cat.fmt, dtos[i]), None)
  {
    var seen := SeenAddresses(cat.fmt, dtos);
    var address := Address(cat.fmt, dtos[i]);
    var stored := StoredAddresses(cat.fmt, db.participants, event, seen);
    assert address in seen;
    if EmailTaken(db.participants, event, address, None) {
      var p :| p in db.participants && db.participants[p] == Participant(event, address);
      assert cat.fmt.lower(db.participants[p].email) in stored;
    }
    if address in stored {
      var p :| p in db.participants && db.participants[p].event == event && db.participants[p].email in seen &&
          cat.fmt.lower(db.participants[p].email) == address;
      assert db.participants[p] == Participant(event, address);
    }
  }

  lemma TakenAfter(cat: Catalog, db: Db, event: Id, index: BlockIndex, dtos: seq<Dto>, ids: seq<Id>, n: nat, db': Db)
    requires cat.prefix != "" && n < |dtos| <= |ids| && Grown(cat, db, event, index, dtos, ids, n, db')
    requires FirstValid(cat.fmt, dtos, n)
    ensures EmailTaken(db'.participants, event, Address(cat.fmt, dtos[n]), None) <==>
        EmailTaken(db.participants, event, Address(cat.fmt, dtos[n]), None)
  {
    var address := Address(cat.fmt, dtos[n]);
    if EmailTaken(db'.participants, event, address, None) {
      var p :| p in db'.participants && db'.participants[p] == Participant(event, address);
      assert forall i :: 0 <= i < n ==> Address(cat.fmt, dtos[i]) != address;
      assert p in db.participants;
    }
    if EmailTaken(db.participants, event, address, None) {
      var p :| p in db.participants && db.participants[p] == Participant(event, address);
      assert db'.participants[p] == Participant(event, address);
    }
  }

  /** What one row does, in terms of the store before the import. */
  lemma RowStep(cat: Catalog, db: Db, event: Id, index: BlockIndex, dtos: seq<Dto>, ids: seq<Id>, n: nat, db': Db)
    requires cat.prefix != "" && LowersOnce(cat.fmt) && n < |dtos| <= |ids|
    requires Grown(cat, db, event, index, dtos, ids, n, db')
    ensures var stored := StoredAddresses(cat.fmt, db.participants, event, SeenAddresses(cat.fmt, dtos));
      var (next, outcome) := ImportRow(cat, db', event, index, stored, dtos, n, ids[n]);
      if Acceptable(cat, db, event, index, dtos, n) then
        && outcome == Imported(ids[n], Address(cat.fmt, dtos[n]))
        && next == db'.(participants := db'.participants[ids[n] := Participant(event, Address(cat.fmt, dtos[n]))],
                        rows := db'.rows + RowsFor(ids[n], ToMap(RowValues(cat, db.rows, event, index, dtos[n]).value)))
      else outcome == Skipped(Address(cat.fmt, dtos[n]), ReasonFor(cat, db, event, dtos, n)) && next == db'
  {
    if cat.fmt.isEmail(Address(cat.fmt, dtos[n])) {
      StoredMeansTaken(cat, db, event, dtos, n);
      RowValuesIgnoreRows(cat, db'.rows, db.rows, event, index, dtos[n]);
      if FirstValid(cat.fmt, dtos, n) {
        TakenAfter(cat, db, event, index, dtos, ids, n, db');
      }
    }
  }

  lemma GrownNext(cat: Catalog, db: Db, event: Id, index: BlockIndex, dtos: seq<Dto>, ids: seq<Id>, n: nat, db': Db,
                  next: Db)
    requires cat.prefix != "" && n < |dtos| <= |ids| && FreshIds(db, ids)
    requires Grown(cat, db, event, index, dtos, ids, n, db')
    requires next.participants == if Acceptable(cat, db, event, index, dtos, n)
      then db'.participants[ids[n] := Participant(event, Address(cat.fmt, dtos[n]))] else db'.participants
    ensures Grown(cat, db, event, index, dtos, ids, n + 1, next)
  {
    forall p | p in next.participants && p !in db.participants
      ensures exists i :: 0 <= i < n + 1 && ids[i] == p && Acceptable(cat, db, event, index, dtos, i)
    {
      if p in db'.participants {
        var i :| 0 <= i < n && ids[i] == p && Acceptable(cat, db, event, index, dtos, i);
        assert i < n + 1;
      } else {
        assert ids[n] == p;
      }
    }
  }

  lemma {:induction false} ImportGrows(cat: Catalog, db: Db, event: Id, index: BlockIndex, dtos: seq<Dto>, ids: seq<Id>,
                                       n: nat)
    requires cat.prefix != "" && LowersOnce(cat.fmt) && n <= |dtos| <= |ids| && FreshIds(db, ids)
    ensures Grown(cat, db, event, index, dtos, ids, n, ImportRows(cat, db, event, index, dtos, ids, n).db)
    decreases n
  {
    hide Acceptable;
    hide ImportRow;
    if n > 0 {
      var db' := ImportRows(cat, db, event, index, dtos, ids, n - 1).db;
      ImportGrows(cat, db, event, index, dtos, ids, n - 1);
      RowStep(cat, db, event, index, dtos, ids, n - 1, db');
      GrownNext(cat, db, event, index, dtos, ids, n - 1, db', ImportRows(cat, db, event, index, dtos, ids, n).db);
    }
  }

  lemma LastOutcome(cat: Catalog, db: Db, event: Id, index: BlockIndex, dtos: seq<Dto>, ids: seq<Id>, n: nat)
    requires cat.prefix != "" && LowersOnce(cat.fmt) && n < |dtos| <= |ids| && FreshIds(db, ids)
    ensures var outcome := ImportRows(cat, db, event, index, dtos, ids, n + 1).outcomes[n];
      if Acceptable(cat, db, event, index, dtos, n) then outcome == Imported(ids[n], Address(cat.fmt, dtos[n]))
      else outcome == Skipped(Address(cat.fmt, dtos[n]), ReasonFor(cat, db, event, dtos, n))
  {
    ImportGrows(cat, db, event, index, dtos, ids, n);
    RowStep(cat, db, event, index, dtos, ids, n, ImportRows(cat, db, event, index, dtos, ids, n).db);
  }

  /**
   A row is imported exactly when it was acceptable to the store as it was before the import: so at most one
   row an address is, the first, and none whose address was stored. Every other row is skipped, in its place,
   and the store before the import tells why.
   */
  lemma {:induction false} RowsImportedExactly(cat: Catalog, db: Db, event: Id, index: BlockIndex, dtos: seq<Dto>,
                                               ids: seq<Id>, n: nat, i: nat)
    requires cat.prefix != "" && LowersOnce(cat.fmt) && i < n <= |dtos| <= |ids| && FreshIds(db, ids)
    ensures var outcome := ImportRows(cat, db, event, index, dtos, ids, n).outcomes[i];
      if Acceptable(cat, db, event, index, dtos, i) then outcome == Imported(ids[i], Address(cat.fmt, dtos[i]))
      else outcome == Skipped(Address(cat.fmt, dtos[i]), ReasonFor(cat, db, event, dtos, i))
    decreases n
  {
    if i == n - 1 {
      LastOutcome(cat, db, event, index, dtos, ids, i);
    } else {
      RowsImportedExactly(cat, db, event, index, dtos, ids, n - 1, i);
      assert ImportRows(cat, db, event, index, dtos, ids, n).outcomes[i]
          == ImportRows(cat, db, event, index, dtos, ids, n - 1).outcomes[i];
    }
  }

  /** Exactly the values of row `i` are stored for its participant. */
  ghost predicate ValuesStored(cat: Catalog, db: Db, event: Id, index: BlockIndex, dtos: seq<Dto>, ids: seq<Id>, i: nat,
                               rows: map<RowKey, Value>)
    requires cat.prefix != "" && i < |dtos| <= |ids| && RowValues(cat, db.rows, event, index, dtos[i]).Ok?
  {
    var values := ToMap(RowValues(cat, db.rows, event, index, dtos[i]).value);
    forall a :: ((ids[i], a) in rows <==> a in values) && (a in values ==> rows[(ids[i], a)] == values[a])
  }

  lemma ValuesWritten(rows: map<RowKey, Value>, p: Id, values: map<Id, Value>, k: RowKey)
    ensures k in rows + RowsFor(p, values) <==> k in rows || (k.0 == p && k.1 in values)
    ensures k in rows + RowsFor(p, values) ==>
        (rows + RowsFor(p, values))[k] == if k.0 == p && k.1 in values then values[k.1] else rows[k]
  {
  }

  /** The tables after row `n - 1`, from those before it. */
  lemma LastRow(cat: Catalog, db: Db, event: Id, index: BlockIndex, dtos: seq<Dto>, ids: seq<Id>, n: nat)
    requires cat.prefix != "" && LowersOnce(cat.fmt) && n < |dtos| <= |ids| && FreshIds(db, ids)
    ensures var before := ImportRows(cat, db, event, index, dtos, ids, n).db;
      var after := ImportRows(cat, db, event, index, dtos, ids, n + 1).db;
      && after.uploads == before.uploads && after.bucket == before.bucket
      && after.rows == if Acceptable(cat, db, event, index, dtos, n)
           then before.rows + RowsFor(ids[n], ToMap(RowValues(cat, db.rows, event, index, dtos[n]).value))
             else before.rows
  {
    ImportGrows(cat, db, event, index, dtos, ids, n);
    RowStep(cat, db, event, index, dtos, ids, n, ImportRows(cat, db, event, index, dtos, ids, n).db);
  }

  lemma LastRowLeaves(cat: Catalog, db: Db, event: Id, index: BlockIndex, dtos: seq<Dto>, ids: seq<Id>, n: nat,
                      k: RowKey)
    requires cat.prefix != "" && LowersOnce(cat.fmt) && n < |dtos| <= |ids| && FreshIds(db, ids)
    requires Acceptable(cat, db, event, index, dtos, n) ==> ids[n] != k.0
    ensures var before := ImportRows(cat, db, event, index, dtos, ids, n).db;
      var after := ImportRows(cat, db, event, index, dtos, ids, n + 1).db;
      && after.uploads == before.uploads && after.bucket == before.bucket
      && (k in after.rows <==> k in before.rows) && (k in before.rows ==> after.rows[k] == before.rows[k])
  {
    LastRow(cat, db, event, index, dtos, ids, n);
  }

  /** Rows of participants that get no row of the sheet stay as they were; so do uploads and objects. */
  lemma {:induction false} ImportLeavesOthers(cat: Catalog, db: Db, event: Id, index: BlockIndex, dtos: seq<Dto>,
                                              ids: seq<Id>, n: nat, k: RowKey)
    requires cat.prefix != "" && LowersOnce(cat.fmt) && n <= |dtos| <= |ids| && FreshIds(db, ids)
    requires forall i :: 0 <= i < n && Acceptable(cat, db, event, index, dtos, i) ==> ids[i] != k.0
    ensures var db' := ImportRows(cat, db, event, index, dtos, ids, n).db;
      && db'.uploads == db.uploads && db'.bucket == db.bucket
      && (k in db'.rows <==> k in db.rows) && (k in db.rows ==> db'.rows[k] == db.rows[k])
    decreases n
  {
    if n > 0 {
      ImportLeavesOthers(cat, db, event, index, dtos, ids, n - 1, k);
      LastRowLeaves(cat, db, event, index, dtos, ids, n - 1, k);
    }
  }

  lemma StoredNext(cat: Catalog, db: Db, event: Id, index: BlockIndex, dtos: seq<Dto>, ids: seq<Id>, i: nat,
                   rows: map<RowKey, Value>, p: Id, values: map<Id, Value>)
    requires cat.prefix != "" && i < |dtos| <= |ids| && RowValues(cat, db.rows, event, index, dtos[i]).Ok?
    requires if p == ids[i] then values == ToMap(RowValues(cat, db.rows, event, index, dtos[i]).value) &&
        forall a :: (p, a) !in rows
      else ValuesStored(cat, db, event, index, dtos, ids, i, rows)
    ensures ValuesStored(cat, db, event, index, dtos, ids, i, rows + RowsFor(p, values))
  {
    var saved := ToMap(RowValues(cat, db.rows, event, index, dtos[i]).value);
    var rows' := rows + RowsFor(p, values);
    forall a ensures ((ids[i], a) in rows' <==> a in saved) && (a in saved ==> rows'[(ids[i], a)] == saved[a]) {
      ValuesWritten(rows, p, values, (ids[i], a));
    }
  }

  lemma LastRowStores(cat: Catalog, db: Db, event: Id, index: BlockIndex, dtos: seq<Dto>, ids: seq<Id>, n: nat)
    requires cat.prefix != "" && LowersOnce(cat.fmt) && n < |dtos| <= |ids| && FreshIds(db, ids)
    requires Acceptable(cat, db, event, index, dtos, n)
    ensures ValuesStored(cat, db, event, index, dtos, ids, n,
        ImportRows(cat, db, event, index, dtos, ids, n + 1).db.rows)
  {
    LastRow(cat, db, event, index, dtos, ids, n);
    forall a ensures (ids[n], a) !in ImportRows(cat, db, event, index, dtos, ids, n).db.rows {
      ImportLeavesOthers(cat, db, event, index, dtos, ids, n, (ids[n], a));
    }
    StoredNext(cat, db, event, index, dtos, ids, n, ImportRows(cat, db, event, index, dtos, ids, n).db.rows,
      ids[n], ToMap(RowValues(cat, db.rows, event, index, dtos[n]).value));
  }

  lemma LastRowKeeps(cat: Catalog, db: Db, event: Id, index: BlockIndex, dtos: seq<Dto>, ids: seq<Id>, n: nat, i: nat)
    requires cat.prefix != "" && LowersOnce(cat.fmt) && i < n < |dtos| <= |ids| && FreshIds(db, ids)
    requires RowValues(cat, db.rows, event, index, dtos[i]).Ok?
    requires ValuesStored(cat, db, event, index, dtos, ids, i, ImportRows(cat, db, event, index, dtos, ids, n).db.rows)
    ensures ValuesStored(cat, db, event, index, dtos, ids, i,
        ImportRows(cat, db, event, index, dtos, ids, n + 1).db.rows)
  {
    LastRow(cat, db, event, index, dtos, ids, n);
    assert ids[i] != ids[n];
    if Acceptable(cat, db, event, index, dtos, n) {
      StoredNext(cat, db, event, index, dtos, ids, i, ImportRows(cat, db, event, index, dtos, ids, n).db.rows,
        ids[n], ToMap(RowValues(cat, db.rows, event, index, dtos[n]).value));
    }
  }

  /** An imported row's values are stored, normalised, for its new participant. */
  lemma {:induction false} ImportStoresValues(cat: Catalog, db: Db, event: Id, index: BlockIndex, dtos: seq<Dto>,
                                              ids: seq<Id>, n: nat, i: nat)
    requires cat.prefix != "" && LowersOnce(cat.fmt) && i < n <= |dtos| <= |ids| && FreshIds(db, ids)
    requires Acceptable(cat, db, event, index, dtos, i)
    ensures ValuesStored(cat, db, event, index, dtos, ids, i, ImportRows(cat, db, event, index, dtos, ids, n).db.rows)
    decreases n
  {
    if i == n - 1 {
      LastRowStores(cat, db, event, index, dtos, ids, i);
    } else {
      ImportStoresValues(cat, db, event, index, dtos, ids, n - 1, i);
      LastRowKeeps(cat, db, event, index, dtos, ids, n - 1, i);
    }
  }
}
