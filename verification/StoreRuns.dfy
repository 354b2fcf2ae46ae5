/** Every call keeps the store sound and its objects linearly owned; so does every run of calls. */
module StoreRuns {
  import opened Wrappers
  import opened Text
  import opened Values
  import opened Normalizer
  import opened Storage
  import opened Store
  import opened Ownership

  // Prepared entries

  predicate InEvent(cat: Catalog, event: Id, a: Id) {
    a in cat.attributes && cat.attributes[a].event == event
  }

  predicate PreparedAs(cat: Catalog, rows: map<RowKey, Value>, event: Id, trusted: bool, current: Option<Id>,
                       entry: Entry, saved: Entry)
    requires cat.prefix != ""
  {
    && InEvent(cat, event, entry.0)
    && saved.0 == entry.0
    && PrepareOne(cat, rows, trusted, current, entry) == Ok(saved.1)
  }

  /** The entries whose attribute belongs to the event. */
  function OwnEntries(cat: Catalog, event: Id, entries: seq<Entry>): seq<Entry> {
    if entries == [] then []
    else if InEvent(cat, event, entries[0].0) then [entries[0]] + OwnEntries(cat, event, entries[1..])
    else OwnEntries(cat, event, entries[1..])
  }

  lemma {:induction false} OwnEntriesAre(cat: Catalog, event: Id, entries: seq<Entry>)
    ensures forall e :: e in OwnEntries(cat, event, entries) <==> e in entries && InEvent(cat, event, e.0)
    ensures DistinctKeys(entries) ==> DistinctKeys(OwnEntries(cat, event, entries))
  {
    if entries != [] {
      var rest := entries[1..];
      OwnEntriesAre(cat, event, rest);
      assert entries == [entries[0]] + rest;
      if DistinctKeys(entries) {
        assert forall j :: 0 <= j < |rest| ==> rest[j] == entries[j + 1];
        assert DistinctKeys(rest);
        var own := OwnEntries(cat, event, rest);
        forall i | 0 <= i < |own| ensures own[i].0 != entries[0].0 {
          assert own[i] in rest;
        }
      }
    }
  }

  lemma {:induction false} PreparedEntries(cat: Catalog, rows: map<RowKey, Value>, event: Id, entries: seq<Entry>,
                                           trusted: bool, current: Option<Id>)
    requires cat.prefix != "" && PrepareEach(cat, rows, event, entries, trusted, current).Ok?
    ensures var saved := PrepareEach(cat, rows, event, entries, trusted, current).value;
      var own := OwnEntries(cat, event, entries);
      && |saved| == |own|
      && forall i :: 0 <= i < |saved| ==> PreparedAs(cat, rows, event, trusted, current, own[i], saved[i])
  {
    if entries != [] {
      PreparedEntries(cat, rows, event, entries[1..], trusted, current);
    }
  }

  lemma EntryOf(entries: seq<Entry>, a: Id) returns (i: nat)
    requires a in ToMap(entries)
    ensures i < |entries| && entries[i] == (a, ToMap(entries)[a])
  {
    i :| 0 <= i < |entries| && entries[i].0 == a && entries[i].1 == ToMap(entries)[a];
  }

  lemma PreparedKeys(cat: Catalog, rows: map<RowKey, Value>, event: Id, entries: seq<Entry>, trusted: bool,
                     current: Option<Id>)
    requires cat.prefix != "" && Prepare(cat, rows, event, entries, trusted, current).Ok?
    ensures var saved := Prepare(cat, rows, event, entries, trusted, current).value;
      && (forall j :: 0 <= j < |entries| && InEvent(cat, event, entries[j].0) ==> entries[j].0 in ToMap(saved))
      && (DistinctKeys(entries) ==> DistinctKeys(saved))
  {
    PreparedEntries(cat, rows, event, entries, trusted, current);
    OwnEntriesAre(cat, event, entries);
    var saved := Prepare(cat, rows, event, entries, trusted, current).value;
    var own := OwnEntries(cat, event, entries);
    forall j | 0 <= j < |entries| && InEvent(cat, event, entries[j].0) ensures entries[j].0 in ToMap(saved) {
      assert entries[j] in own;
      var i :| 0 <= i < |own| && own[i] == entries[j];
      assert saved[i].0 == entries[j].0;
    }
    if DistinctKeys(entries) {
      forall i, j | 0 <= i < j < |saved| ensures saved[i].0 != saved[j].0 {
        assert own[i].0 != own[j].0;
      }
    }
  }

  /** Which entry a prepared value comes from. */
  lemma PreparedMap(cat: Catalog, rows: map<RowKey, Value>, event: Id, entries: seq<Entry>, trusted: bool,
                    current: Option<Id>, a: Id)
    returns (j: nat)
    requires cat.prefix != "" && Prepare(cat, rows, event, entries, trusted, current).Ok?
    requires a in ToMap(Prepare(cat, rows, event, entries, trusted, current).value)
    ensures j < |entries|
    ensures PreparedAs(cat, rows, event, trusted, current, entries[j],
        (a, ToMap(Prepare(cat, rows, event, entries, trusted, current).value)[a]))
  {
    PreparedEntries(cat, rows, event, entries, trusted, current);
    OwnEntriesAre(cat, event, entries);
    var saved := Prepare(cat, rows, event, entries, trusted, current).value;
    var i := EntryOf(saved, a);
    var own := OwnEntries(cat, event, entries)[i];
    assert own in entries;
    j :| 0 <= j < |entries| && entries[j] == own;
  }

  /** Values in normal form, under attributes of the event. */
  predicate AllNormal(cat: Catalog, event: Id, values: map<Id, Value>) {
    forall a :: a in values ==> InEvent(cat, event, a) && IsNormal(cat, a, values[a])
  }

  /** The values prepared for participant `p` are in normal form, under attributes of the event. */
  lemma PreparedAreNormal(cat: Catalog, rows: map<RowKey, Value>, event: Id, entries: seq<Entry>, trusted: bool,
                          current: Option<Id>)
    requires cat.prefix != "" && Prepare(cat, rows, event, entries, trusted, current).Ok?
    ensures AllNormal(cat, event, ToMap(Prepare(cat, rows, event, entries, trusted, current).value))
  {
    var values := ToMap(Prepare(cat, rows, event, entries, trusted, current).value);
    forall a | a in values ensures InEvent(cat, event, a) && IsNormal(cat, a, values[a]) {
      var j := PreparedMap(cat, rows, event, entries, trusted, current, a);
      PreparedOneIsNormal(cat, rows, trusted, current, entries[j]);
    }
  }

  lemma PreparedOneIsNormal(cat: Catalog, rows: map<RowKey, Value>, trusted: bool, current: Option<Id>, entry: Entry)
    requires cat.prefix != "" && entry.0 in cat.attributes && PrepareOne(cat, rows, trusted, current, entry).Ok?
    ensures var w := PrepareOne(cat, rows, trusted, current, entry).value;
      IsNormal(cat, entry.0, w)
  {
    var (a, v) := entry;
    var raw := if IsFileAttribute(cat, a) && !trusted
      then ResolveUntrustedFile(cat.prefix, v, if current.Some? then RowOr(rows, (current.value, a), Null) else Null)
      else Ok(v);
    NormalizeIsIdempotent(cat.fmt, cat.attributes[a], BlocksOf(cat, a), raw.value);
  }

  /** Outside a form, a file row can only be cleared or left as it is. */
  lemma UntrustedFileUnchanged(cat: Catalog, db: Db, current: Option<Id>, entry: Entry)
    requires cat.prefix != "" && entry.0 in cat.attributes && IsFileAttribute(cat, entry.0)
    requires LinearOwnership(cat, db) && Sound(cat, db)
    requires PrepareOne(cat, db.rows, false, current, entry).Ok?
    ensures var w := PrepareOne(cat, db.rows, false, current, entry).value;
      w == Null || (current.Some? && (current.value, entry.0) in db.rows && db.rows[(current.value, entry.0)] == w)
  {
    if current.Some? {
      var k := (current.value, entry.0);
      if k in db.rows && db.rows[k].Str? {
        assert db.rows[k].s != "";
        assert Owns(cat, db, AttributeRow(k), db.rows[k].s);
        assert KeyOf(cat.prefix, db.rows[k].s) == db.rows[k].s;
      }
    }
  }

  // Claimed tokens

  /** The upload token a submitted file value names. */
  function TokenOf(cat: Catalog, entry: Entry): Option<Id> {
    if IsFileAttribute(cat, entry.0) && entry.1.Str? && Trim(entry.1.s) != ""
      then Some(cat.fmt.uuidValue(Trim(entry.1.s))) else None
  }

  function Tokens(cat: Catalog, entries: seq<Entry>): set<Id> {
    set i | 0 <= i < |entries| && TokenOf(cat, entries[i]).Some? :: TokenOf(cat, entries[i]).value
  }

  predicate CheckedAs(cat: Catalog, uploads: map<Id, Upload>, form: Form, entry: Entry, checked: Entry) {
    && checked.0 == entry.0
    && HasField(form, entry.0)
    && entry.0 in cat.attributes
    && match TokenOf(cat, entry)
       case None => checked.1 == entry.1
       case Some(t) => t in uploads && !uploads[t].claimed && checked.1 == Str(uploads[t].key)
  }

  lemma {:induction false} UploadsClaimed(cat: Catalog, rows: map<RowKey, Value>, uploads: map<Id, Upload>,
                                          formId: IdText, form: Form,
                                          participant: Option<Id>, entries: seq<Entry>)
    requires CheckEntries(cat, rows, uploads, formId, form, participant, entries).Ok?
    ensures CheckEntries(cat, rows, uploads, formId, form, participant, entries).value.1
        == Claimed(uploads, Tokens(cat, entries))
  {
    if entries != [] {
      var first := CheckEntry(cat, rows, uploads, formId, form, participant, entries[0]).value;
      EntryChecked(cat, rows, uploads, formId, form, participant, entries[0]);
      UploadsClaimed(cat, rows, first.1, formId, form, participant, entries[1..]);
      TokensStep(cat, entries);
    }
  }

  lemma {:induction false} EntriesChecked(cat: Catalog, rows: map<RowKey, Value>, uploads: map<Id, Upload>,
                                          formId: IdText, form: Form,
                                          participant: Option<Id>, entries: seq<Entry>)
    requires CheckEntries(cat, rows, uploads, formId, form, participant, entries).Ok?
    ensures var checked := CheckEntries(cat, rows, uploads, formId, form, participant, entries).value.0;
      && |checked| == |entries|
      && forall i :: 0 <= i < |entries| ==> CheckedAs(cat, uploads, form, entries[i], checked[i])
  {
    if entries != [] {
      var first := CheckEntry(cat, rows, uploads, formId, form, participant, entries[0]).value;
      var rest := entries[1..];
      EntriesChecked(cat, rows, first.1, formId, form, participant, rest);
      var checkedRest := CheckEntries(cat, rows, first.1, formId, form, participant, rest).value.0;
      EntryChecked(cat, rows, uploads, formId, form, participant, entries[0]);
      forall i | 0 <= i < |rest| ensures CheckedAs(cat, uploads, form, rest[i], checkedRest[i]) {
        assert CheckedAs(cat, first.1, form, rest[i], checkedRest[i]);
      }
    }
  }

  lemma EntryChecked(cat: Catalog, rows: map<RowKey, Value>, uploads: map<Id, Upload>, formId: IdText, form: Form,
                     participant: Option<Id>, entry: Entry)
    requires CheckEntry(cat, rows, uploads, formId, form, participant, entry).Ok?
    ensures var (value, after) := CheckEntry(cat, rows, uploads, formId, form, participant, entry).value;
      && CheckedAs(cat, uploads, form, entry, (entry.0, value))
      && after == Claimed(uploads, if TokenOf(cat, entry).Some? then {TokenOf(cat, entry).value} else {})
  {
  }

  /** No token is claimed twice: after the first claim the upload is no longer unclaimed. */
  lemma {:induction false} TokensDiffer(cat: Catalog, rows: map<RowKey, Value>, uploads: map<Id, Upload>,
                                        formId: IdText, form: Form,
                                        participant: Option<Id>, entries: seq<Entry>)
    requires CheckEntries(cat, rows, uploads, formId, form, participant, entries).Ok?
    ensures forall i, j :: 0 <= i < j < |entries| && TokenOf(cat, entries[i]).Some? ==>
        TokenOf(cat, entries[i]) != TokenOf(cat, entries[j])
  {
    if entries != [] {
      var first := CheckEntry(cat, rows, uploads, formId, form, participant, entries[0]).value;
      var rest := entries[1..];
      EntryChecked(cat, rows, uploads, formId, form, participant, entries[0]);
      EntriesChecked(cat, rows, first.1, formId, form, participant, rest);
      TokensDiffer(cat, rows, first.1, formId, form, participant, rest);
      var checkedRest := CheckEntries(cat, rows, first.1, formId, form, participant, rest).value.0;
      forall j | 0 < j < |entries| && TokenOf(cat, entries[0]).Some?
        ensures TokenOf(cat, entries[0]) != TokenOf(cat, entries[j])
      {
        assert CheckedAs(cat, first.1, form, rest[j - 1], checkedRest[j - 1]);
      }
      assert forall i :: 0 < i < |entries| ==> entries[i] == rest[i - 1];
    }
  }

  lemma TokensStep(cat: Catalog, entries: seq<Entry>)
    requires entries != []
    ensures Tokens(cat, entries) == Tokens(cat, entries[1..]) +
      if TokenOf(cat, entries[0]).Some? then {TokenOf(cat, entries[0]).value} else {}
  {
    var rest := entries[1..];
    forall t | t in Tokens(cat, rest) ensures t in Tokens(cat, entries) {
      var i :| 0 <= i < |rest| && TokenOf(cat, rest[i]) == Some(t);
      assert entries[i + 1] == rest[i];
    }
    forall t | t in Tokens(cat, entries)
      ensures t in Tokens(cat, rest) || TokenOf(cat, entries[0]) == Some(t)
    {
      var i :| 0 <= i < |entries| && TokenOf(cat, entries[i]) == Some(t);
      assert i > 0 ==> rest[i - 1] == entries[i];
    }
  }

  lemma {:induction false} PutKeepsKeysDistinct(entries: seq<Entry>, a: Id, v: Value)
    requires DistinctKeys(entries)
    ensures DistinctKeys(Put(entries, a, v))
    ensures forall i :: 0 <= i < |Put(entries, a, v)| ==>
      Put(entries, a, v)[i] == (a, v) || Put(entries, a, v)[i] in entries
  {
    if entries != [] && entries[0].0 != a {
      PutKeepsKeysDistinct(entries[1..], a, v);
      assert forall i :: 0 <= i < |entries[1..]| ==> entries[1..][i] == entries[i + 1];
    }
  }

  lemma {:induction false} CollectDistinct(list: seq<Entry>)
    ensures DistinctKeys(Collect(list))
  {
    if list != [] {
      CollectDistinct(list[..|list| - 1]);
      PutKeepsKeysDistinct(Collect(list[..|list| - 1]), list[|list| - 1].0, list[|list| - 1].1);
    }
  }

  // One call

  ghost predicate StoreOk(cat: Catalog, db: Db) {
    Sound(cat, db) && LinearOwnership(cat, db)
  }

  lemma WritingKeepsRowsNormal(cat: Catalog, db: Db, db': Db, written: map<RowKey, Value>)
    requires RowsNormal(cat, db) && db'.rows == db.rows + written
    requires forall p :: p in db.participants ==>
        p in db'.participants && db'.participants[p].event == db.participants[p].event
    requires forall k :: k in written ==>
      && k.0 in db'.participants && InEvent(cat, db'.participants[k.0].event, k.1)
      && IsNormal(cat, k.1, written[k])
    ensures RowsNormal(cat, db')
  {
  }

  lemma WriteWithoutClaims(cat: Catalog, db: Db, db': Db, written: map<RowKey, Value>)
    requires cat.prefix != "" && StoreOk(cat, db)
    requires forall k :: k in written && IsFileAttribute(cat, k.1) ==> FileValueOk(cat, db, map[], k, written[k])
    requires db' == WriteRows(cat, db, written).(participants := db'.participants)
    ensures LinearOwnership(cat, db')
  {
    var none: map<RowKey, Id> := map[];
    assert db.uploads == Claimed(db.uploads, none.Values);
    WriteKeepsOwnership(cat, db, db', written, none);
  }

  predicate AddressOk(db: Db, eventId: Id, p: Id, address: string) {
    !EmailTaken(db.participants, eventId, address, Some(p)) ||
        (p in db.participants && db.participants[p] == Participant(eventId, address))
  }

  lemma AddressKeepsEmailsUnique(db: Db, event: Id, p: Id, address: string)
    requires EmailsUnique(db)
    requires AddressOk(db, event, p, address)
    ensures EmailsUnique(db.(participants := db.participants[p := Participant(event, address)]))
  {
  }

  /** Values in normal form, written for one participant of the event with file objects claimed for it. */
  lemma SavingKeepsStore(cat: Catalog, db: Db, db': Db, event: Id, p: Id, address: string, values: map<Id, Value>,
                         claims: map<RowKey, Id>)
    requires CatalogOk(cat) && StoreOk(cat, db)
    requires ClaimsOk(cat, db, RowsFor(p, values), claims)
    requires AllNormal(cat, event, values)
    requires p in db.participants ==> db.participants[p].event == event
    requires AddressOk(db, event, p, address)
    requires db' == WriteRows(cat, db, RowsFor(p, values))
      .(participants := db.participants[p := Participant(event, address)],
          uploads := Claimed(db.uploads, claims.Values))
    ensures StoreOk(cat, db')
  {
    WriteKeepsOwnership(cat, db, db', RowsFor(p, values), claims);
    WritingKeepsRowsNormal(cat, db, db', RowsFor(p, values));
    AddressKeepsEmailsUnique(db, event, p, address);
  }

  lemma NoClaimsNeeded(cat: Catalog, db: Db, event: Id, p: Id, entries: seq<Entry>, current: Option<Id>)
    requires CatalogOk(cat) && StoreOk(cat, db) && (current == Some(p) || current == None)
    requires Prepare(cat, db.rows, event, entries, false, current).Ok?
    ensures ClaimsOk(cat, db, RowsFor(p, ToMap(Prepare(cat, db.rows, event, entries, false, current).value)), map[])
  {
    var values := ToMap(Prepare(cat, db.rows, event, entries, false, current).value);
    forall k | k in RowsFor(p, values) && IsFileAttribute(cat, k.1)
      ensures FileValueOk(cat, db, map[], k, values[k.1])
    {
      var j := PreparedMap(cat, db.rows, event, entries, false, current, k.1);
      UntrustedFileUnchanged(cat, db, current, entries[j]);
    }
  }

  lemma FreshRowsReplaceNothing(cat: Catalog, db: Db, id: Id, values: map<Id, Value>)
    requires cat.prefix != "" && RowsNormal(cat, db) && id !in db.participants
    ensures WriteRows(cat, db, RowsFor(id, values)) == db.(rows := db.rows + RowsFor(id, values))
  {
    assert ReplacedKeys(cat, db.rows, RowsFor(id, values)) == {};
  }

  lemma ClaimingNothing(uploads: map<Id, Upload>, none: map<RowKey, Id>)
    requires none == map[]
    ensures Claimed(uploads, none.Values) == uploads
  {
  }

  lemma UntrustedRegisterKeepsStore(cat: Catalog, db: Db, event: Id, email: string, entries: seq<Entry>, id: Id)
    requires CatalogOk(cat) && StoreOk(cat, db) && id !in db.participants
    requires Register(cat, db, event, email, entries, false, id).Ok?
    ensures StoreOk(cat, Register(cat, db, event, email, entries, false, id).value)
  {
    var values := ToMap(Prepare(cat, db.rows, event, entries, false, None).value);
    NoClaimsNeeded(cat, db, event, id, entries, None);
    PreparedAreNormal(cat, db.rows, event, entries, false, None);
    FreshRowsReplaceNothing(cat, db, id, values);
    ClaimingNothing(db.uploads, map[]);
    SavingKeepsStore(cat, db, Register(cat, db, event, email, entries, false, id).value,
                     event, id, email, values, map[]);
  }

  lemma UntrustedUpdateKeepsStore(cat: Catalog, db: Db, event: Id, p: Id, email: Option<string>,
                                  entries: Option<seq<Entry>>)
    requires CatalogOk(cat) && StoreOk(cat, db)
    requires Update(cat, db, event, p, email, entries, false).Ok?
    ensures StoreOk(cat, Update(cat, db, event, p, email, entries, false).value)
  {
    var list := entries.GetOr([]);
    var values := ToMap(Prepare(cat, db.rows, event, list, false, Some(p)).value);
    NoClaimsNeeded(cat, db, event, p, list, Some(p));
    PreparedAreNormal(cat, db.rows, event, list, false, Some(p));
    ClaimingNothing(db.uploads, map[]);
    SavingKeepsStore(cat, db, Update(cat, db, event, p, email, entries, false).value, event, p,
                     email.GetOr(db.participants[p].email), values, map[]);
  }

  /** An accepted bulk update names an attribute of the event as it is spelled, and participants of the event. */
  lemma AcceptedBulkUpdate(cat: Catalog, db: Db, event: Id, a: IdText, v: Value, ids: seq<IdText>)
    requires cat.prefix != "" && BulkUpdate(cat, db, event, a, v, ids).Ok?
    ensures InEvent(cat, event, a) && PrepareOne(cat, db.rows, false, None, (a, v)).Ok?
    ensures forall p :: p in UuidValues(cat.fmt, ids) ==> p in ParticipantsOf(db, event)
    ensures BulkUpdate(cat, db, event, a, v, ids).value
         == WriteRows(cat, db, SameForAll(UuidValues(cat.fmt, ids), a,
             PrepareOne(cat, db.rows, false, None, (a, v)).value))
  {
    PrepareSingle(cat, db.rows, event, (a, v), false, None);
  }

  lemma BulkUpdateKeepsStore(cat: Catalog, db: Db, event: Id, a: IdText, v: Value, ids: seq<IdText>)
    requires CatalogOk(cat) && StoreOk(cat, db)
    requires BulkUpdate(cat, db, event, a, v, ids).Ok?
    ensures StoreOk(cat, BulkUpdate(cat, db, event, a, v, ids).value)
  {
    AcceptedBulkUpdate(cat, db, event, a, v, ids);
    var db' := BulkUpdate(cat, db, event, a, v, ids).value;
    var w := PrepareOne(cat, db.rows, false, None, (a, v)).value;
    var written := SameForAll(UuidValues(cat.fmt, ids), a, w);
    PreparedOneIsNormal(cat, db.rows, false, None, (a, v));
    if IsFileAttribute(cat, a) {
      UntrustedFileUnchanged(cat, db, None, (a, v));
    }
    WritingKeepsRowsNormal(cat, db, db', written);
    WriteWithoutClaims(cat, db, db', written);
  }

  lemma RemoveManyKeepsStore(cat: Catalog, db: Db, event: Id, ids: set<Id>)
    requires CatalogOk(cat) && StoreOk(cat, db)
    ensures StoreOk(cat, RemoveMany(cat, db, event, ids))
  {
    hide IsNormal;
    var db' := RemoveMany(cat, db, event, ids);
    var deleted := db.bucket - db'.bucket;
    forall o, x | Owns(cat, db', o, x) ensures x in db'.bucket && Owns(cat, db, o, x) {
      assert Owns(cat, db, o, x);
      if x !in db'.bucket {
        var k :| k in db.rows && k !in db'.rows && FileKey(cat, db.rows, k) == Some(x);
        RowNamesItself(cat, db, k);
        assert false;
      }
    }
    forall x | x in db'.bucket ensures exists o :: Owns(cat, db', o, x) {
      var o :| Owns(cat, db, o, x);
      if o.AttributeRow? && o.key !in db'.rows {
        RowNamesItself(cat, db, o.key);
        assert false;
      }
      assert Owns(cat, db', o, x);
    }
  }

  /** Exactly the objects that values of removed participants name are deleted. */
  lemma RemoveManyDeletesExactly(cat: Catalog, db: Db, event: Id, ids: set<Id>, x: string)
    requires CatalogOk(cat) && StoreOk(cat, db)
    ensures x in RemoveMany(cat, db, event, ids).bucket
       <==> x in db.bucket && forall k :: Owns(cat, db, AttributeRow(k), x) ==>
              !(k.0 in ids && k.0 in db.participants && db.participants[k.0].event == event)
  {
    if x in db.bucket && x !in RemoveMany(cat, db, event, ids).bucket {
      var k :| k in db.rows && k !in RemoveMany(cat, db, event, ids).rows && FileKey(cat, db.rows, k) == Some(x);
      RowNamesItself(cat, db, k);
    }
    forall k | Owns(cat, db, AttributeRow(k), x) ensures FileKey(cat, db.rows, k) == Some(x) {
      RowNamesItself(cat, db, k);
    }
  }

  lemma UploadKeepsStore(cat: Catalog, db: Db, limits: UploadLimits, form: Id, size: int, mime: string, key: string,
                         token: Id, now: int)
    requires CatalogOk(cat) && StoreOk(cat, db)
    requires key !in db.bucket && GoodKey(cat, key) && token !in db.uploads
    requires UploadFile(db, limits, form, size, mime, key, token, now).Ok?
    ensures StoreOk(cat, UploadFile(db, limits, form, size, mime, key, token, now).value)
  {
    var db' := UploadFile(db, limits, form, size, mime, key, token, now).value;
    forall o, x | Owns(cat, db', o, x) ensures x in db'.bucket && (o == UploadRow(token) || Owns(cat, db, o, x)) {
      if o != UploadRow(token) {
        assert Owns(cat, db, o, x);
      }
    }
    forall x | x in db'.bucket ensures exists o :: Owns(cat, db', o, x) {
      if x == key {
        assert Owns(cat, db', UploadRow(token), x);
      } else {
        var o :| Owns(cat, db, o, x);
        assert Owns(cat, db', o, x);
      }
    }
  }

  lemma ReapKeepsStore(cat: Catalog, db: Db, expiry: int)
    requires CatalogOk(cat) && StoreOk(cat, db)
    ensures StoreOk(cat, Reap(db, expiry))
  {
    var db' := Reap(db, expiry);
    forall o, x | Owns(cat, db', o, x) ensures x in db'.bucket && Owns(cat, db, o, x) {
      assert Owns(cat, db, o, x);
      if x !in db'.bucket {
        var t :| t in db.uploads && t !in db'.uploads && db.uploads[t].key == x;
        assert Owns(cat, db, UploadRow(t), x);
        assert false;
      }
    }
    forall x | x in db'.bucket ensures exists o :: Owns(cat, db', o, x) {
      var o :| Owns(cat, db, o, x);
      assert Owns(cat, db', o, x);
    }
  }

  /** Exactly the objects of expired unclaimed uploads are deleted. */
  lemma ReapDeletesExactly(cat: Catalog, db: Db, expiry: int, x: string)
    requires CatalogOk(cat) && StoreOk(cat, db)
    ensures x in Reap(db, expiry).bucket
       <==> x in db.bucket && forall t :: Owns(cat, db, UploadRow(t), x) ==> db.uploads[t].createdAt >= expiry
  {
    if x in db.bucket && x !in Reap(db, expiry).bucket {
      var t :| t in db.uploads && t !in Reap(db, expiry).uploads && db.uploads[t].key == x;
      assert Owns(cat, db, UploadRow(t), x);
    }
  }

  // A submission

  /** A file field filled with nothing but white space. */
  predicate HasBlankFile(cat: Catalog, entries: seq<Entry>) {
    exists i :: 0 <= i < |entries| && IsFileAttribute(cat, entries[i].0) &&
      entries[i].1.Str? && entries[i].1.s != "" && Trim(entries[i].1.s) == ""
  }

  /** The upload each written file row takes its object from. */
  function ClaimsFor(cat: Catalog, p: Id, entries: seq<Entry>): (claims: map<RowKey, Id>)
    ensures forall k :: k in claims <==>
        k.0 == p && k.1 in ToMap(entries) && TokenOf(cat, (k.1, ToMap(entries)[k.1])).Some?
    ensures forall k :: k in claims ==> claims[k] == TokenOf(cat, (k.1, ToMap(entries)[k.1])).value
  {
    map k | k in RowsFor(p, ToMap(entries)) && TokenOf(cat, (k.1, ToMap(entries)[k.1])).Some? ::
      TokenOf(cat, (k.1, ToMap(entries)[k.1])).value
  }

  predicate AllChecked(cat: Catalog, uploads: map<Id, Upload>, form: Form, entries: seq<Entry>, checked: seq<Entry>) {
    && DistinctKeys(entries)
    && |checked| == |entries|
    && (forall i :: 0 <= i < |entries| ==> CheckedAs(cat, uploads, form, entries[i], checked[i]))
    && (forall i, j :: 0 <= i < j < |entries| && TokenOf(cat, entries[i]).Some? ==>
        TokenOf(cat, entries[i]) != TokenOf(cat, entries[j]))
  }

  /** The current participant whose stored values a submission replaces, if any. */
  function Current(cat: Catalog, eventId: Id, formId: IdText, p: Id): Option<Id>
    requires eventId in cat.events
  {
    if IsRegistration(cat, eventId, formId) then None else Some(p)
  }

  /** What an accepted inner call writes, and for whom. */
  lemma SavedSubmission(cat: Catalog, db: Db, eventId: Id, formId: IdText, sub: Submission, full: bool,
                        entries: seq<Entry>, id: Id)
    returns (p: Id, address: string, values: map<Id, Value>)
    requires CatalogOk(cat) && RowsNormal(cat, db) && id !in db.participants && eventId in cat.events
    requires SaveSubmission(cat, db, eventId, formId, sub, full, entries, id).Ok?
    ensures p == if IsRegistration(cat, eventId, formId) then id else sub.participant.GetOr(id)
    ensures !IsRegistration(cat, eventId, formId) ==>
        sub.participant.Some? && p in db.participants && db.participants[p].event == eventId
    ensures Prepare(cat, db.rows, eventId, entries, true, Current(cat, eventId, formId, p)).Ok?
    ensures values == ToMap(Prepare(cat, db.rows, eventId, entries, true, Current(cat, eventId, formId, p)).value)
    ensures AddressOk(db, eventId, p, address)
    ensures SaveSubmission(cat, db, eventId, formId, sub, full, entries, id).value
         == WriteRows(cat, db, RowsFor(p, values)).(participants := db.participants[p := Participant(eventId, address)])
  {
    hide Prepare;
    if IsRegistration(cat, eventId, formId) {
      p, address := id, sub.email.value;
      values := ToMap(Prepare(cat, db.rows, eventId, entries, true, None).value);
      FreshRowsReplaceNothing(cat, db, id, values);
    } else {
      p := sub.participant.value;
      address := sub.email.GetOr(db.participants[p].email);
      values := ToMap(Prepare(cat, db.rows, eventId, entries, true, Some(p)).value);
    }
  }

  /** An accepted submission, taken apart: what it saves, for whom, and what it checked first. */
  lemma AcceptedSubmission(cat: Catalog, db: Db, eventId: Id, formId: IdText, sub: Submission, now: int, id: Id)
    returns (checked: seq<Entry>, p: Id, address: string, values: map<Id, Value>)
    requires CatalogOk(cat) && RowsNormal(cat, db) && id !in db.participants
    requires FormSubmit(cat, db, eventId, formId, sub, now, id).Ok?
    ensures eventId in cat.events && KnownForm(cat, formId) && FormOf(cat, formId).event == eventId
    ensures var form := FormOf(cat, formId);
      && AllChecked(cat, db.uploads, form, Collect(sub.attributes), checked)
      && (forall i :: 0 <= i < |form.fields| ==>
            FieldSatisfied(cat, form.fields[i],
                EffectiveValue(db.rows, sub.participant, checked, form.fields[i].attribute)))
    ensures p == if IsRegistration(cat, eventId, formId) then id else sub.participant.GetOr(id)
    ensures !IsRegistration(cat, eventId, formId) ==>
        sub.participant.Some? && p in db.participants && db.participants[p].event == eventId
    ensures Prepare(cat, db.rows, eventId, checked, true, Current(cat, eventId, formId, p)).Ok?
    ensures values == ToMap(Prepare(cat, db.rows, eventId, checked, true, Current(cat, eventId, formId, p)).value)
    ensures AddressOk(db, eventId, p, address)
    ensures FormSubmit(cat, db, eventId, formId, sub, now, id).value == WriteRows(cat, db, RowsFor(p, values))
      .(participants := db.participants[p := Participant(eventId, address)],
        uploads := Claimed(db.uploads, Tokens(cat, Collect(sub.attributes))))
  {
    var form := FormOf(cat, formId);
    var entries := Collect(sub.attributes);
    CollectDistinct(sub.attributes);
    EntriesChecked(cat, db.rows, db.uploads, formId, form, sub.participant, entries);
    TokensDiffer(cat, db.rows, db.uploads, formId, form, sub.participant, entries);
    UploadsClaimed(cat, db.rows, db.uploads, formId, form, sub.participant, entries);
    var result := CheckEntries(cat, db.rows, db.uploads, formId, form, sub.participant, entries).value;
    checked := result.0;
    p, address, values := SavedSubmission(cat, db.(uploads := result.1), eventId, formId, sub,
        LimitReached(cat, db, eventId), checked, id);
  }

  /** A checked file entry is saved as the claimed object, or as nothing. */
  lemma SavedFileEntry(cat: Catalog, db: Db, form: Form, current: Option<Id>, entry: Entry, checked: Entry)
    requires CatalogOk(cat) && StoreOk(cat, db)
    requires IsFileAttribute(cat, entry.0) && CheckedAs(cat, db.uploads, form, entry, checked)
    requires PrepareOne(cat, db.rows, true, current, checked).Ok?
    ensures var w := PrepareOne(cat, db.rows, true, current, checked).value;
      match TokenOf(cat, entry)
      case Some(t) => w == Str(db.uploads[t].key)
      case None => w == if entry.1.Str? && entry.1.s != "" then entry.1 else Null
  {
    if TokenOf(cat, entry).Some? {
      var t := TokenOf(cat, entry).value;
      assert Owns(cat, db, UploadRow(t), db.uploads[t].key);
      assert Trim(db.uploads[t].key) != "";
    }
  }

  /** Which submitted entry a saved value comes from. */
  lemma SavedFrom(cat: Catalog, db: Db, eventId: Id, form: Form, current: Option<Id>, entries: seq<Entry>,
                  checked: seq<Entry>, a: Id)
    returns (j: nat)
    requires cat.prefix != "" && AllChecked(cat, db.uploads, form, entries, checked)
    requires Prepare(cat, db.rows, eventId, checked, true, current).Ok?
    requires a in ToMap(Prepare(cat, db.rows, eventId, checked, true, current).value)
    ensures j < |entries| && entries[j].0 == a && a in ToMap(entries) && entries[j].1 == ToMap(entries)[a]
    ensures CheckedAs(cat, db.uploads, form, entries[j], checked[j])
    ensures PrepareOne(cat, db.rows, true, current, checked[j])
         == Ok(ToMap(Prepare(cat, db.rows, eventId, checked, true, current).value)[a])
  {
    j := PreparedMap(cat, db.rows, eventId, checked, true, current, a);
    assert CheckedAs(cat, db.uploads, form, entries[j], checked[j]);
  }

  lemma SavedFilesOk(cat: Catalog, db: Db, eventId: Id, form: Form, p: Id, current: Option<Id>, entries: seq<Entry>,
                     checked: seq<Entry>, a: Id)
    requires CatalogOk(cat) && StoreOk(cat, db) && IsFileAttribute(cat, a)
    requires AllChecked(cat, db.uploads, form, entries, checked) && !HasBlankFile(cat, entries)
    requires Prepare(cat, db.rows, eventId, checked, true, current).Ok?
    requires a in ToMap(Prepare(cat, db.rows, eventId, checked, true, current).value)
    ensures FileValueOk(cat, db, ClaimsFor(cat, p, entries), (p, a),
        ToMap(Prepare(cat, db.rows, eventId, checked, true, current).value)[a])
  {
    hide StoreOk;
    hide Prepare;
    hide PrepareOne;
    var j := SavedFrom(cat, db, eventId, form, current, entries, checked, a);
    SavedFileEntry(cat, db, form, current, entries[j], checked[j]);
  }

  lemma ClaimsAreInjective(cat: Catalog, p: Id, entries: seq<Entry>, k: RowKey, k': RowKey)
    requires forall i, j :: 0 <= i < j < |entries| && TokenOf(cat, entries[i]).Some? ==>
        TokenOf(cat, entries[i]) != TokenOf(cat, entries[j])
    requires var claims := ClaimsFor(cat, p, entries);
      k in claims && k' in claims && claims[k] == claims[k']
    ensures k == k'
  {
    var i := EntryOf(entries, k.1);
    var j := EntryOf(entries, k'.1);
  }

  lemma ClaimsAreSaved(cat: Catalog, db: Db, eventId: Id, formId: IdText, p: Id, current: Option<Id>,
                       entries: seq<Entry>, checked: seq<Entry>, k: RowKey)
    requires CatalogOk(cat) && KnownForm(cat, formId) && FormOf(cat, formId).event == eventId
    requires AllChecked(cat, db.uploads, FormOf(cat, formId), entries, checked)
    requires Prepare(cat, db.rows, eventId, checked, true, current).Ok?
    requires k in ClaimsFor(cat, p, entries)
    ensures k in RowsFor(p, ToMap(Prepare(cat, db.rows, eventId, checked, true, current).value))
  {
    PreparedKeys(cat, db.rows, eventId, checked, true, current);
    var j := EntryOf(entries, k.1);
    assert CheckedAs(cat, db.uploads, FormOf(cat, formId), entries[j], checked[j]);
    assert InEvent(cat, eventId, checked[j].0);
  }

  lemma SubmissionClaimsOk(cat: Catalog, db: Db, eventId: Id, formId: IdText, p: Id, current: Option<Id>,
                           entries: seq<Entry>, checked: seq<Entry>)
    requires CatalogOk(cat) && StoreOk(cat, db)
    requires KnownForm(cat, formId) && FormOf(cat, formId).event == eventId
    requires AllChecked(cat, db.uploads, FormOf(cat, formId), entries, checked) && !HasBlankFile(cat, entries)
    requires Prepare(cat, db.rows, eventId, checked, true, current).Ok?
    ensures var values := ToMap(Prepare(cat, db.rows, eventId, checked, true, current).value);
      ClaimsOk(cat, db, RowsFor(p, values), ClaimsFor(cat, p, entries))
  {
    var values := ToMap(Prepare(cat, db.rows, eventId, checked, true, current).value);
    var claims := ClaimsFor(cat, p, entries);
    forall k | k in RowsFor(p, values) && IsFileAttribute(cat, k.1)
      ensures FileValueOk(cat, db, claims, k, values[k.1])
    {
      SavedFilesOk(cat, db, eventId, FormOf(cat, formId), p, current, entries, checked, k.1);
    }
    forall k | k in claims ensures k in RowsFor(p, values) {
      ClaimsAreSaved(cat, db, eventId, formId, p, current, entries, checked, k);
    }
    forall k, k' | k in claims && k' in claims && claims[k] == claims[k'] ensures k == k' {
      ClaimsAreInjective(cat, p, entries, k, k');
    }
  }

  lemma ClaimedTokens(cat: Catalog, p: Id, entries: seq<Entry>)
    requires DistinctKeys(entries)
    ensures ClaimsFor(cat, p, entries).Values == Tokens(cat, entries)
  {
    var claims := ClaimsFor(cat, p, entries);
    forall t | t in Tokens(cat, entries) ensures t in claims.Values {
      var i :| 0 <= i < |entries| && TokenOf(cat, entries[i]) == Some(t);
      assert entries[i] == (entries[i].0, ToMap(entries)[entries[i].0]);
      assert claims[(p, entries[i].0)] == t;
    }
    forall t | t in claims.Values ensures t in Tokens(cat, entries) {
      var k :| k in claims && claims[k] == t;
      var j :| 0 <= j < |entries| && entries[j].0 == k.1 && entries[j].1 == ToMap(entries)[k.1];
      assert entries[j] == (k.1, ToMap(entries)[k.1]);
    }
  }

  /** An accepted submission keeps the store, unless it fills a file field with white space. */
  lemma SubmissionKeepsStore(cat: Catalog, db: Db, eventId: Id, formId: IdText, sub: Submission, now: int, id: Id)
    requires CatalogOk(cat) && StoreOk(cat, db) && id !in db.participants
    requires FormSubmit(cat, db, eventId, formId, sub, now, id).Ok?
    requires !HasBlankFile(cat, Collect(sub.attributes))
    ensures StoreOk(cat, FormSubmit(cat, db, eventId, formId, sub, now, id).value)
  {
    var entries := Collect(sub.attributes);
    var checked, p, address, values := AcceptedSubmission(cat, db, eventId, formId, sub, now, id);
    var current := Current(cat, eventId, formId, p);
    PreparedAreNormal(cat, db.rows, eventId, checked, true, current);
    SubmissionClaimsOk(cat, db, eventId, formId, p, current, entries, checked);
    ClaimedTokens(cat, p, entries);
    SavingKeepsStore(cat, db, FormSubmit(cat, db, eventId, formId, sub, now, id).value, eventId, p, address, values,
        ClaimsFor(cat, p, entries));
  }

  /** A blank file value is stored as it is, and names no object. */
  lemma BlankFileBreaksOwnership(cat: Catalog, db: Db, eventId: Id, formId: IdText, sub: Submission, now: int, id: Id)
    requires CatalogOk(cat) && StoreOk(cat, db) && id !in db.participants
    requires FormSubmit(cat, db, eventId, formId, sub, now, id).Ok?
    requires HasBlankFile(cat, Collect(sub.attributes))
    ensures !LinearOwnership(cat, FormSubmit(cat, db, eventId, formId, sub, now, id).value)
  {
    var entries := Collect(sub.attributes);
    var db' := FormSubmit(cat, db, eventId, formId, sub, now, id).value;
    var checked, p, address, values := AcceptedSubmission(cat, db, eventId, formId, sub, now, id);
    var current := Current(cat, eventId, formId, p);
    var i :| 0 <= i < |entries| && IsFileAttribute(cat, entries[i].0) &&
      entries[i].1.Str? && entries[i].1.s != "" && Trim(entries[i].1.s) == "";
    BlankFileIsStored(cat, db, eventId, formId, current, entries, checked, i);
    BlankRowBreaksOwnership(cat, db, db', (p, entries[i].0));
  }

  lemma BlankFileIsStored(cat: Catalog, db: Db, eventId: Id, formId: IdText, current: Option<Id>, entries: seq<Entry>,
                          checked: seq<Entry>, i: nat)
    requires CatalogOk(cat) && StoreOk(cat, db)
    requires KnownForm(cat, formId) && FormOf(cat, formId).event == eventId
    requires AllChecked(cat, db.uploads, FormOf(cat, formId), entries, checked)
    requires Prepare(cat, db.rows, eventId, checked, true, current).Ok?
    requires i < |entries| && IsFileAttribute(cat, entries[i].0) && entries[i].1.Str? && entries[i].1.s != ""
    requires Trim(entries[i].1.s) == ""
    ensures var values := ToMap(Prepare(cat, db.rows, eventId, checked, true, current).value);
      entries[i].0 in values && values[entries[i].0] == entries[i].1
  {
    PreparedKeys(cat, db.rows, eventId, checked, true, current);
    assert CheckedAs(cat, db.uploads, FormOf(cat, formId), entries[i], checked[i]);
    assert InEvent(cat, eventId, checked[i].0);
    var j := SavedFrom(cat, db, eventId, FormOf(cat, formId), current, entries, checked, entries[i].0);
    SavedFileEntry(cat, db, FormOf(cat, formId), current, entries[j], checked[j]);
  }

  lemma BlankRowBreaksOwnership(cat: Catalog, db: Db, db': Db, k: RowKey)
    requires Sound(cat, db) && db'.bucket <= db.bucket
    requires k in db'.rows && IsFileAttribute(cat, k.1) && db'.rows[k].Str? && db'.rows[k].s != ""
    requires Trim(db'.rows[k].s) == ""
    ensures !LinearOwnership(cat, db')
  {
    assert Owns(cat, db', AttributeRow(k), db'.rows[k].s);
  }

  /** The exact condition under which an accepted submission leaves every object with exactly one owner. */
  lemma SubmissionKeepsOwnershipExactly(cat: Catalog, db: Db, eventId: Id, formId: IdText, sub: Submission, now: int,
                                        id: Id)
    requires CatalogOk(cat) && StoreOk(cat, db) && id !in db.participants
    requires FormSubmit(cat, db, eventId, formId, sub, now, id).Ok?
    ensures LinearOwnership(cat, FormSubmit(cat, db, eventId, formId, sub, now, id).value)
       <==> !HasBlankFile(cat, Collect(sub.attributes))
  {
    if HasBlankFile(cat, Collect(sub.attributes)) {
      BlankFileBreaksOwnership(cat, db, eventId, formId, sub, now, id);
    } else {
      SubmissionKeepsStore(cat, db, eventId, formId, sub, now, id);
    }
  }

  /** The same for the whole store: normal form and unique addresses are kept in any case. */
  lemma SubmissionKeepsStoreExactly(cat: Catalog, db: Db, eventId: Id, formId: IdText, sub: Submission, now: int,
                                    id: Id)
    requires CatalogOk(cat) && StoreOk(cat, db) && id !in db.participants
    requires FormSubmit(cat, db, eventId, formId, sub, now, id).Ok?
    ensures StoreOk(cat, FormSubmit(cat, db, eventId, formId, sub, now, id).value)
       <==> !HasBlankFile(cat, Collect(sub.attributes))
  {
    if HasBlankFile(cat, Collect(sub.attributes)) {
      BlankFileBreaksOwnership(cat, db, eventId, formId, sub, now, id);
    } else {
      SubmissionKeepsStore(cat, db, eventId, formId, sub, now, id);
    }
  }

  // Runs

  datatype Call =
    | UploadCall(limits: UploadLimits, form: Id, size: int, mime: string, key: string, token: Id, at: int)
    | SubmitCall(event: Id, form: IdText, sub: Submission, at: int, id: Id)
    | CreateCall(event: Id, email: string, entries: seq<Entry>, id: Id)
    | UpdateCall(event: Id, participant: Id, newEmail: Option<string>, changes: Option<seq<Entry>>)
    | BulkCall(event: Id, attribute: IdText, value: Value, ids: seq<IdText>)
    | RemoveCall(event: Id, participant: Id)
    | RemoveManyCall(event: Id, set<Id>)
    | ReapCall(expiry: int)

  function Answer(cat: Catalog, db: Db, call: Call): Result<Db>
    requires cat.prefix != ""
  {
    match call
    case UploadCall(limits, form, size, mime, key, token, at) =>
      UploadFile(db, limits, form, size, mime, key, token, at)
    case SubmitCall(event, form, sub, at, id) => FormSubmit(cat, db, event, form, sub, at, id)
    case CreateCall(event, email, entries, id) => Register(cat, db, event, email, entries, false, id)
    case UpdateCall(event, p, email, changes) => Update(cat, db, event, p, email, changes, false)
    case BulkCall(event, a, v, ids) => BulkUpdate(cat, db, event, a, v, ids)
    case RemoveCall(event, p) => Remove(cat, db, event, p)
    case RemoveManyCall(event, ids) => Ok(RemoveMany(cat, db, event, ids))
    case ReapCall(expiry) => Ok(Reap(db, expiry))
  }

  /** A call that raises an exception rolls back. */
  function After(cat: Catalog, db: Db, call: Call): Db
    requires cat.prefix != ""
  {
    if Answer(cat, db, call).Ok? then Answer(cat, db, call).value else db
  }

  /** New ids and keys are fresh, and no file field is filled with white space. */
  predicate Proper(cat: Catalog, db: Db, call: Call) {
    match call
    case UploadCall(_, _, _, _, key, token, _) => key !in db.bucket && GoodKey(cat, key) && token !in db.uploads
    case SubmitCall(_, _, sub, _, id) => id !in db.participants && !HasBlankFile(cat, Collect(sub.attributes))
    case CreateCall(_, _, _, id) => id !in db.participants
    case _ => true
  }

  function Run(cat: Catalog, db: Db, calls: seq<Call>): Db
    requires cat.prefix != ""
    decreases calls
  {
    if calls == [] then db else Run(cat, After(cat, db, calls[0]), calls[1..])
  }

  predicate ProperRun(cat: Catalog, db: Db, calls: seq<Call>)
    requires cat.prefix != ""
    decreases calls
  {
    calls != [] ==> Proper(cat, db, calls[0]) && ProperRun(cat, After(cat, db, calls[0]), calls[1..])
  }

  lemma CallKeepsStore(cat: Catalog, db: Db, call: Call)
    requires CatalogOk(cat) && StoreOk(cat, db) && Proper(cat, db, call)
    ensures StoreOk(cat, After(cat, db, call))
  {
    if Answer(cat, db, call).Ok? {
      match call
      case UploadCall(limits, form, size, mime, key, token, at) =>
        UploadKeepsStore(cat, db, limits, form, size, mime, key, token, at);
      case SubmitCall(event, form, sub, at, id) => SubmissionKeepsStore(cat, db, event, form, sub, at, id);
      case CreateCall(event, email, entries, id) => UntrustedRegisterKeepsStore(cat, db, event, email, entries, id);
      case UpdateCall(event, p, email, changes) => UntrustedUpdateKeepsStore(cat, db, event, p, email, changes);
      case BulkCall(event, a, v, ids) => BulkUpdateKeepsStore(cat, db, event, a, v, ids);
      case RemoveCall(event, p) => RemoveManyKeepsStore(cat, db, event, {p});
      case RemoveManyCall(event, ids) => RemoveManyKeepsStore(cat, db, event, ids);
      case ReapCall(expiry) => ReapKeepsStore(cat, db, expiry);
    }
  }

  /** Along every run, each object has exactly one owner and every owner's object exists. */
  lemma {:induction false} RunKeepsStore(cat: Catalog, db: Db, calls: seq<Call>)
    requires CatalogOk(cat) && StoreOk(cat, db) && ProperRun(cat, db, calls)
    ensures StoreOk(cat, Run(cat, db, calls))
    decreases calls
  {
    if calls != [] {
      CallKeepsStore(cat, db, calls[0]);
      RunKeepsStore(cat, After(cat, db, calls[0]), calls[1..]);
    }
  }

  /** The same from an event without participants, uploads and objects. */
  lemma EveryObjectIsOwnedOnce(cat: Catalog, calls: seq<Call>)
    requires CatalogOk(cat) && ProperRun(cat, Db(map[], map[], map[], {}), calls)
    ensures LinearOwnership(cat, Run(cat, Db(map[], map[], map[], {}), calls))
  {
    RunKeepsStore(cat, Db(map[], map[], map[], {}), calls);
  }

  // What one update changes

  /** The row of a file attribute that names the object, and that the update sets to something else. */
  predicate Replaces(cat: Catalog, db: Db, written: map<RowKey, Value>, k: RowKey, x: string) {
    k in written && Owns(cat, db, AttributeRow(k), x) && written[k] != Str(x)
  }

  lemma ReplacedExactly(cat: Catalog, db: Db, written: map<RowKey, Value>, x: string)
    requires CatalogOk(cat) && StoreOk(cat, db)
    ensures x in WriteRows(cat, db, written).bucket <==> x in db.bucket && forall k :: k in written ==>
        !Replaces(cat, db, written, k, x)
  {
    if x in db.bucket && x in ReplacedKeys(cat, db.rows, written) {
      var k :| k in written && FileKey(cat, db.rows, k).Some? && db.rows[k] != written[k] &&
          FileKey(cat, db.rows, k).value == x;
      RowNamesItself(cat, db, k);
      assert Replaces(cat, db, written, k, x);
    }
    forall k | k in written && Replaces(cat, db, written, k, x) ensures x in ReplacedKeys(cat, db.rows, written) {
      assert FileKey(cat, db.rows, k).Some?;
      RowNamesItself(cat, db, k);
    }
  }

  /**
   A bulk update sets exactly the listed participants' rows of the attribute, and deletes exactly the objects that
   these rows named and no longer name.
   */
  lemma BulkUpdateChangesExactly(cat: Catalog, db: Db, event: Id, a: IdText, v: Value, ids: seq<IdText>, k: RowKey,
                                 x: string)
    requires CatalogOk(cat) && StoreOk(cat, db) && BulkUpdate(cat, db, event, a, v, ids).Ok?
    ensures InEvent(cat, event, a)
    ensures var db' := BulkUpdate(cat, db, event, a, v, ids).value;
      var w := PrepareOne(cat, db.rows, false, None, (a, v));
      && w.Ok? && db'.participants == db.participants && db'.uploads == db.uploads
      && (if k.0 in UuidValues(cat.fmt, ids) && k.1 == a then k in db'.rows && db'.rows[k] == w.value
          else (k in db'.rows <==> k in db.rows) && (k in db.rows ==> db'.rows[k] == db.rows[k]))
      && (x in db'.bucket <==>
            && x in db.bucket
            && !exists p ::
                 p in UuidValues(cat.fmt, ids) && Owns(cat, db, AttributeRow((p, a)), x) && w.value != Str(x))
  {
    AcceptedBulkUpdate(cat, db, event, a, v, ids);
    var w := PrepareOne(cat, db.rows, false, None, (a, v)).value;
    var written := SameForAll(UuidValues(cat.fmt, ids), a, w);
    ReplacedExactly(cat, db, written, x);
    forall p | p in UuidValues(cat.fmt, ids)
      ensures Replaces(cat, db, written, (p, a), x) <==> Owns(cat, db, AttributeRow((p, a)), x) && w != Str(x)
    {
      assert (p, a) in written;
    }
  }

  /** What is saved for an entry of the event's own attributes. */
  lemma PreparedValue(cat: Catalog, rows: map<RowKey, Value>, event: Id, entries: seq<Entry>, trusted: bool,
                      current: Option<Id>, i: nat)
    requires cat.prefix != "" && Prepare(cat, rows, event, entries, trusted, current).Ok? && i < |entries|
    requires InEvent(cat, event, entries[i].0)
    requires DistinctKeys(Prepare(cat, rows, event, entries, trusted, current).value)
    ensures var values := ToMap(Prepare(cat, rows, event, entries, trusted, current).value);
      entries[i].0 in values && PrepareOne(cat, rows, trusted, current, entries[i]) == Ok(values[entries[i].0])
  {
    PreparedEntries(cat, rows, event, entries, trusted, current);
    OwnEntriesAre(cat, event, entries);
    var saved := Prepare(cat, rows, event, entries, trusted, current).value;
    var own := OwnEntries(cat, event, entries);
    assert entries[i] in own;
    var j :| 0 <= j < |own| && own[j] == entries[i];
    assert PreparedAs(cat, rows, event, trusted, current, own[j], saved[j]);
    assert ToMap(saved)[saved[j].0] == saved[j].1;
  }

  /** The entry concerns the attribute, and the event has it. */
  predicate Sends(cat: Catalog, event: Id, entries: seq<Entry>, a: Id) {
    InEvent(cat, event, a) && exists j :: 0 <= j < |entries| && entries[j].0 == a
  }

  lemma OnlySentIsPrepared(cat: Catalog, rows: map<RowKey, Value>, event: Id, entries: seq<Entry>, trusted: bool,
                           current: Option<Id>, a: Id)
    requires cat.prefix != "" && Prepare(cat, rows, event, entries, trusted, current).Ok?
    requires DistinctKeys(Prepare(cat, rows, event, entries, trusted, current).value)
    ensures a in ToMap(Prepare(cat, rows, event, entries, trusted, current).value) <==> Sends(cat, event, entries, a)
  {
    if a in ToMap(Prepare(cat, rows, event, entries, trusted, current).value) {
      var j := PreparedMap(cat, rows, event, entries, trusted, current, a);
    }
    if Sends(cat, event, entries, a) {
      var i :| 0 <= i < |entries| && entries[i].0 == a;
      PreparedValue(cat, rows, event, entries, trusted, current, i);
    }
  }

  /** The rows that an accepted update writes. */
  function Written(cat: Catalog, db: Db, event: Id, p: Id, entries: seq<Entry>, trusted: bool): map<RowKey, Value>
    requires cat.prefix != "" && Prepare(cat, db.rows, event, entries, trusted, Some(p)).Ok?
  {
    RowsFor(p, ToMap(Prepare(cat, db.rows, event, entries, trusted, Some(p)).value))
  }

  lemma AcceptedUpdate(cat: Catalog, db: Db, event: Id, p: Id, email: Option<string>, entries: seq<Entry>,
                       trusted: bool)
    requires cat.prefix != "" && Update(cat, db, event, p, email, Some(entries), trusted).Ok?
    ensures var saved := Prepare(cat, db.rows, event, entries, trusted, Some(p)); saved.Ok? && DistinctKeys(saved.value)
    ensures var db' := Update(cat, db, event, p, email, Some(entries), trusted).value;
      db'.uploads == db.uploads &&
          WriteRows(cat, db, Written(cat, db, event, p, entries, trusted)) == db'.(participants := db.participants)
  {
  }

  /** An update sets exactly the participant's rows of the event's attributes that were sent, to prepared values. */
  lemma UpdateSetsExactly(cat: Catalog, db: Db, event: Id, p: Id, email: Option<string>, entries: seq<Entry>,
                          trusted: bool, i: nat, k: RowKey)
    requires cat.prefix != "" && Update(cat, db, event, p, email, Some(entries), trusted).Ok? && i < |entries|
    ensures var rows := Update(cat, db, event, p, email, Some(entries), trusted).value.rows;
      && (InEvent(cat, event, entries[i].0) ==>
            (p, entries[i].0) in rows &&
                PrepareOne(cat, db.rows, trusted, Some(p), entries[i]) == Ok(rows[(p, entries[i].0)]))
      && (k.0 != p || !Sends(cat, event, entries, k.1) ==>
          (k in rows <==> k in db.rows) && (k in db.rows ==> rows[k] == db.rows[k]))
  {
    AcceptedUpdate(cat, db, event, p, email, entries, trusted);
    OnlySentIsPrepared(cat, db.rows, event, entries, trusted, Some(p), k.1);
    if InEvent(cat, event, entries[i].0) {
      PreparedValue(cat, db.rows, event, entries, trusted, Some(p), i);
      assert (p, entries[i].0) in Written(cat, db, event, p, entries, trusted);
    }
  }

  /** And it deletes exactly the objects that those rows named and no longer name. */
  lemma UpdateDeletesExactly(cat: Catalog, db: Db, event: Id, p: Id, email: Option<string>, entries: seq<Entry>,
                             trusted: bool, x: string)
    requires CatalogOk(cat) && StoreOk(cat, db) && Update(cat, db, event, p, email, Some(entries), trusted).Ok?
    ensures var db' := Update(cat, db, event, p, email, Some(entries), trusted).value;
      x in db'.bucket <==>
        && x in db.bucket
        && !exists a :: Owns(cat, db, AttributeRow((p, a)), x) && db'.rows[(p, a)] != Str(x)
  {
    var written := Written(cat, db, event, p, entries, trusted);
    var rows := Update(cat, db, event, p, email, Some(entries), trusted).value.rows;
    AcceptedUpdate(cat, db, event, p, email, entries, trusted);
    assert rows == db.rows + written;
    ReplacedExactly(cat, db, written, x);
    forall a | Owns(cat, db, AttributeRow((p, a)), x)
      ensures rows[(p, a)] != Str(x) <==> Replaces(cat, db, written, (p, a), x)
    {
    }
  }
}
