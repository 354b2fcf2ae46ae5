/**
 The tables of an event and what each service call does to them.

 A `Catalog` holds what stays fixed along the runs studied here (events, forms, attributes, blocks);
 a `Db` holds what the calls change. A call that raises an exception changes nothing.
 */
module Store {
  import opened Wrappers
  import opened Text
  import opened Values
  import opened Normalizer
  import opened Storage

  /** The value of a UUID column, spelled as the database returns it. */
  type Id = string

  /** A UUID as a request spells it; the database compares it by value, the code sometimes as text. */
  type IdText = string

  datatype Block = Block(attribute: Id, isRoot: bool, capacity: Option<int>)

  datatype OpenCondition = Manual | OnDate

  datatype Field = Field(attribute: Id, required: bool)

  datatype Form = Form(event: Id, condition: OpenCondition, isOpen: bool,
                       openDate: Option<int>, closeDate: Option<int>, fields: seq<Field>)

  datatype Event = Event(registerForm: Option<Id>, limit: Option<int>)

  datatype Catalog = Catalog(
    fmt: Formats,
    prefix: string,
    events: map<Id, Event>,
    forms: map<Id, Form>,
    attributes: map<Id, Attribute>,
    blocks: map<Id, Block>)

  datatype Participant = Participant(event: Id, email: string)

  /** A participant and an attribute: the unique key of a stored value. */
  type RowKey = (Id, Id)

  datatype Upload = Upload(key: string, form: Id, isImage: bool, createdAt: int, claimed: bool)

  datatype Db = Db(
    participants: map<Id, Participant>,
    rows: map<RowKey, Value>,
    uploads: map<Id, Upload>,
    bucket: set<string>)

  type Entry = (Id, Value)

  function BlocksOf(cat: Catalog, a: Id): set<Id> {
    set b | b in cat.blocks && cat.blocks[b].attribute == a
  }

  function NormalizeFor(cat: Catalog, a: Id, v: Value): Result<Value>
    requires a in cat.attributes
  {
    Normalize(cat.fmt, cat.attributes[a], BlocksOf(cat, a), v)
  }

  predicate IsFileAttribute(cat: Catalog, a: Id) {
    a in cat.attributes && FileLike(cat.attributes[a].kind)
  }

  function RowOr(rows: map<RowKey, Value>, key: RowKey, default: Value): Value {
    if key in rows then rows[key] else default
  }

  // Preparing submitted values

  /** A file value that does not come from a form: it may be cleared or sent back, never changed. */
  function ResolveUntrustedFile(prefix: string, raw: Value, current: Value): Result<Value>
    requires prefix != ""
  {
    if raw.Undefined? || raw.Null? || raw == Str("") then Ok(raw)
    else if !raw.Str? then Err(BadRequest)
    else
      var stripped := KeyOf(prefix, raw.s);
      if current.Str? && stripped == KeyOf(prefix, current.s) then Ok(Str(stripped)) else Err(BadRequest)
  }

  function PrepareOne(cat: Catalog, rows: map<RowKey, Value>, trusted: bool, current: Option<Id>,
                      entry: Entry): Result<Value>
    requires cat.prefix != "" && entry.0 in cat.attributes
  {
    var (a, v) := entry;
    var raw :- if IsFileAttribute(cat, a) && !trusted
      then ResolveUntrustedFile(cat.prefix, v, if current.Some? then RowOr(rows, (current.value, a), Null) else Null)
      else Ok(v);
    var w :- NormalizeFor(cat, a, raw);
    Ok(InJson(w))
  }

  /** The entries of the event's own attributes, normalised; the others are dropped. */
  function PrepareEach(cat: Catalog, rows: map<RowKey, Value>, event: Id, entries: seq<Entry>, trusted: bool,
                       current: Option<Id>): Result<seq<Entry>>
    requires cat.prefix != ""
  {
    if entries == [] then Ok([])
    else
      var a := entries[0].0;
      if a !in cat.attributes || cat.attributes[a].event != event
      then PrepareEach(cat, rows, event, entries[1..], trusted, current)
      else
        var v :- PrepareOne(cat, rows, trusted, current, entries[0]);
        var rest :- PrepareEach(cat, rows, event, entries[1..], trusted, current);
        Ok([(a, v)] + rest)
  }

  predicate KeysAreUuids(fmt: Formats, entries: seq<Entry>) {
    forall i :: 0 <= i < |entries| ==> fmt.isUuid(entries[i].0)
  }

  /** The attributes are read in one query first, which an id that is no UUID makes fail. */
  function Prepare(cat: Catalog, rows: map<RowKey, Value>, event: Id, entries: seq<Entry>, trusted: bool,
                   current: Option<Id>): Result<seq<Entry>>
    requires cat.prefix != ""
  {
    if !KeysAreUuids(cat.fmt, entries) then Err(Internal)
    else PrepareEach(cat, rows, event, entries, trusted, current)
  }

  lemma PrepareSingle(cat: Catalog, rows: map<RowKey, Value>, event: Id, entry: Entry, trusted: bool,
                      current: Option<Id>)
    requires cat.prefix != "" && cat.fmt.isUuid(entry.0)
    ensures Prepare(cat, rows, event, [entry], trusted, current)
         == if entry.0 !in cat.attributes || cat.attributes[entry.0].event != event then Ok([])
            else match PrepareOne(cat, rows, trusted, current, entry)
              case Ok(w) => Ok([(entry.0, w)])
              case Err(e) => Err(e)
  {
    assert [entry][1..] == [];
    var none: seq<Entry> := [];
    assert PrepareEach(cat, rows, event, [entry][1..], trusted, current) == Ok(none);
    var w := if entry.0 in cat.attributes then PrepareOne(cat, rows, trusted, current, entry) else Err(Internal);
    assert w.Ok? ==> [(entry.0, w.value)] + none == [(entry.0, w.value)];
  }

  predicate DistinctKeys(entries: seq<Entry>) {
    forall i, j :: 0 <= i < j < |entries| ==> entries[i].0 != entries[j].0
  }

  /** Exactly the entries' keys are in the map, with one of their values, and without repeated keys with theirs. */
  predicate Collects(entries: seq<Entry>, m: map<Id, Value>) {
    && (forall i :: 0 <= i < |entries| ==> entries[i].0 in m)
    && (forall a :: a in m ==> exists i :: 0 <= i < |entries| && entries[i].0 == a && entries[i].1 == m[a])
    && (DistinctKeys(entries) ==> forall i :: 0 <= i < |entries| ==> m[entries[i].0] == entries[i].1)
  }

  /** The entries as a map: the last value given for an attribute. */
  function ToMap(entries: seq<Entry>): (m: map<Id, Value>)
    ensures forall i :: 0 <= i < |entries| ==> entries[i].0 in m
    ensures forall a :: a in m ==> exists i :: 0 <= i < |entries| && entries[i].0 == a && entries[i].1 == m[a]
    ensures DistinctKeys(entries) ==> forall i :: 0 <= i < |entries| ==> m[entries[i].0] == entries[i].1
  {
    if entries == [] then map[]
    else
      var last := |entries| - 1;
      var m := ToMap(entries[..last]);
      CollectsOneMore(entries, m);
      m[entries[last].0 := entries[last].1]
  }

  lemma CollectsOneMore(entries: seq<Entry>, m: map<Id, Value>)
    requires entries != [] && Collects(entries[..|entries| - 1], m)
    ensures Collects(entries, m[entries[|entries| - 1].0 := entries[|entries| - 1].1])
  {
    var last := |entries| - 1;
    var front, m' := entries[..last], m[entries[last].0 := entries[last].1];
    assert forall i :: 0 <= i < last ==> front[i] == entries[i];
    assert DistinctKeys(entries) ==> DistinctKeys(front);
    forall a | a in m' ensures exists i :: 0 <= i < |entries| && entries[i].0 == a && entries[i].1 == m'[a] {
      if a == entries[last].0 {
        assert entries[last].1 == m'[a];
      } else {
        var i :| 0 <= i < last && front[i].0 == a && front[i].1 == m[a];
        assert entries[i] == front[i];
      }
    }
  }

  // Writing values

  /** The rows that hold `values` for participant `p`. */
  function RowsFor(p: Id, values: map<Id, Value>): (written: map<RowKey, Value>)
    ensures forall k :: k in written <==> k.0 == p && k.1 in values
    ensures forall k :: k in written ==> written[k] == values[k.1]
  {
    map k | k in (set a | a in values :: (p, a)) :: values[k.1]
  }

  /** The rows that hold `v` for attribute `a` of each of the participants. */
  function SameForAll(ids: seq<Id>, a: Id, v: Value): (written: map<RowKey, Value>)
    ensures forall k :: k in written <==> k.0 in ids && k.1 == a
    ensures forall k :: k in written ==> written[k] == v
  {
    var keys := set p | p in ids :: (p, a);
    map k | k in keys :: v
  }

  /** The object a stored file value names. */
  function FileKey(cat: Catalog, rows: map<RowKey, Value>, k: RowKey): Option<string>
    requires cat.prefix != ""
  {
    if k in rows && IsFileAttribute(cat, k.1) && rows[k].Str? && rows[k].s != ""
    then Some(KeyOf(cat.prefix, rows[k].s))
    else None
  }

  /** The objects named by stored values that writing `written` replaces by something else. */
  function ReplacedKeys(cat: Catalog, rows: map<RowKey, Value>, written: map<RowKey, Value>): set<string>
    requires cat.prefix != ""
  {
    set k | k in written && FileKey(cat, rows, k).Some? && rows[k] != written[k] :: FileKey(cat, rows, k).value
  }

  /** Rows replaced or created, and the objects they no longer name deleted. */
  function WriteRows(cat: Catalog, db: Db, written: map<RowKey, Value>): Db
    requires cat.prefix != ""
  {
    db.(rows := db.rows + written, bucket := db.bucket - ReplacedKeys(cat, db.rows, written))
  }

  predicate EmailTaken(participants: map<Id, Participant>, event: Id, email: string, except: Option<Id>) {
    exists p :: p in participants && except != Some(p) && participants[p] == Participant(event, email)
  }

  // Participants

  function ParticipantsOf(db: Db, event: Id): set<Id> {
    set p | p in db.participants && db.participants[p].event == event
  }

  function Register(cat: Catalog, db: Db, event: Id, email: string, entries: seq<Entry>, trusted: bool,
                    id: Id): Result<Db>
    requires cat.prefix != ""
  {
    if event !in cat.events then Err(NotFound)
    else
      var saved :- Prepare(cat, db.rows, event, entries, trusted, None);
      if EmailTaken(db.participants, event, email, None) || !DistinctKeys(saved) then Err(Conflict)
      else Ok(db.(participants := db.participants[id := Participant(event, email)],
                  rows := db.rows + RowsFor(id, ToMap(saved))))
  }

  function Update(cat: Catalog, db: Db, event: Id, p: Id, email: Option<string>, entries: Option<seq<Entry>>,
                  trusted: bool): Result<Db>
    requires cat.prefix != ""
  {
    if p !in db.participants || db.participants[p].event != event then Err(NotFound)
    else
      var saved :- if entries.None? then Ok([]) else Prepare(cat, db.rows, event, entries.value, trusted, Some(p));
      if (email.Some? && EmailTaken(db.participants, event, email.value, Some(p))) || !DistinctKeys(saved)
      then Err(Conflict)
      else
        var address := email.GetOr(db.participants[p].email);
        Ok(WriteRows(cat, db, RowsFor(p, ToMap(saved)))
           .(participants := db.participants[p := Participant(event, address)]))
  }

  /** The attribute is looked up by value, then by its text among those prepared; participants are counted by value. */
  function BulkUpdate(cat: Catalog, db: Db, event: Id, a: IdText, v: Value, ids: seq<IdText>): Result<Db>
    requires cat.prefix != ""
  {
    var at := cat.fmt.uuidValue(a);
    if at !in cat.attributes || cat.attributes[at].event != event then Err(NotFound)
    else if !NamesEach(cat.fmt, ids, ParticipantsOf(db, event)) then Err(BadRequest)
    else
      var saved :- Prepare(cat, db.rows, event, [(a, v)], false, None);
      if saved == [] then Err(BadRequest)
        else Ok(WriteRows(cat, db, SameForAll(UuidValues(cat.fmt, ids), saved[0].0, saved[0].1)))
  }

  /** The participants of the event among `ids`, removed with their rows and the objects these name. */
  function RemoveMany(cat: Catalog, db: Db, event: Id, ids: set<Id>): Db
    requires cat.prefix != ""
  {
    var gone := set p | p in ids && p in db.participants && db.participants[p].event == event;
    var dropped := set k | k in db.rows && k.0 in gone;
    db.(participants := db.participants - gone,
        rows := db.rows - dropped,
        bucket := db.bucket - set k | k in dropped && FileKey(cat, db.rows, k).Some? :: FileKey(cat, db.rows, k).value)
  }

  function Remove(cat: Catalog, db: Db, event: Id, p: Id): Result<Db>
    requires cat.prefix != ""
  {
    if p !in db.participants || db.participants[p].event != event then Err(NotFound)
    else Ok(RemoveMany(cat, db, event, {p}))
  }

  // Uploads

  datatype UploadLimits = UploadLimits(maxSize: int, allowedMimes: seq<string>)

  /** `key` is the name the storage chose, `token` the id the new upload row got. */
  function UploadFile(db: Db, limits: UploadLimits, form: Id, size: int, mime: string, key: string, token: Id,
                      now: int): Result<Db>
  {
    if size > limits.maxSize || mime !in limits.allowedMimes then Err(BadRequest)
    else Ok(db.(bucket := db.bucket + {key},
                uploads := db.uploads[token := Upload(key, form, "image/" <= mime, now, false)]))
  }

  /** Unclaimed uploads older than `expiry` are dropped, rows and objects. */
  function Reap(db: Db, expiry: int): Db {
    var expired := set t | t in db.uploads && !db.uploads[t].claimed && db.uploads[t].createdAt < expiry;
    db.(uploads := db.uploads - expired,
        bucket := db.bucket - set t | t in expired :: db.uploads[t].key)
  }

  // Form submission

  datatype Submission = Submission(email: Option<string>, participant: Option<Id>, attributes: seq<Entry>)

  /** An assignment to a property of a JavaScript object: an existing property keeps its place. */
  function Put(entries: seq<Entry>, a: Id, v: Value): seq<Entry> {
    if entries == [] then [(a, v)]
    else if entries[0].0 == a then [(a, v)] + entries[1..]
    else [entries[0]] + Put(entries[1..], a, v)
  }

  /** The submitted list as an object: one entry per attribute, the last value given for it. */
  function Collect(list: seq<Entry>): seq<Entry> {
    if list == [] then []
    else Put(Collect(list[..|list| - 1]), list[|list| - 1].0, list[|list| - 1].1)
  }

  function IsOpen(form: Form, now: int): Result<bool> {
    match form.condition
    case Manual => Ok(form.isOpen)
    case OnDate =>
      if form.closeDate.None? then Err(Internal)
      else Ok((form.openDate.None? || form.openDate.value <= now) && now <= form.closeDate.value)
  }

  predicate HasField(form: Form, a: Id) {
    exists i :: 0 <= i < |form.fields| && form.fields[i].attribute == a
  }

  /** The array contains the text as it is spelled. */
  predicate Holds(v: Value, text: IdText) {
    v.Arr? && Str(text) in v.items
  }

  /** The rows of any attribute whose stored array contains the text. */
  function CountHolders(rows: map<RowKey, Value>, text: IdText): nat {
    |set k | k in rows && Holds(rows[k], text)|
  }

  /** The block is found by value; its holders are counted by the text asked for. */
  predicate CanSignIn(cat: Catalog, rows: map<RowKey, Value>, event: Id, a: Id, text: IdText) {
    var b := cat.fmt.uuidValue(text);
    && b in cat.blocks
    && cat.blocks[b].attribute == a
    && a in cat.attributes
    && cat.attributes[a].event == event
    && !cat.blocks[b].isRoot
    && (cat.blocks[b].capacity.Some? ==> CountHolders(rows, text) < cat.blocks[b].capacity.value)
  }

  /** The ids a block submission asks for; items that are not strings are passed over. */
  function RequestedBlocks(v: Value): seq<IdText> {
    if SplitToItems(v).Some? then ListItems(v) else []
  }

  predicate HeldBefore(rows: map<RowKey, Value>, participant: Option<Id>, a: Id, text: IdText) {
    participant.Some? && (participant.value, a) in rows && Holds(rows[(participant.value, a)], text)
  }

  predicate BlockAllowed(cat: Catalog, rows: map<RowKey, Value>, event: Id, participant: Option<Id>, a: Id,
                         text: IdText)
  {
    HeldBefore(rows, participant, a, text) || (cat.fmt.isUuid(text) && CanSignIn(cat, rows, event, a, text))
  }

  predicate BlocksAllowed(cat: Catalog, rows: map<RowKey, Value>, event: Id, participant: Option<Id>, a: Id, v: Value) {
    forall i :: 0 <= i < |RequestedBlocks(v)| ==> BlockAllowed(cat, rows, event, participant, a, RequestedBlocks(v)[i])
  }

  /** One submitted entry: its file token is claimed, its blocks are checked. */
  function CheckEntry(cat: Catalog, rows: map<RowKey, Value>, uploads: map<Id, Upload>, formId: IdText, form: Form,
                      participant: Option<Id>, entry: Entry): Result<(Value, map<Id, Upload>)>
  {
    var (a, v) := entry;
    if !HasField(form, a) || a !in cat.attributes then Err(BadRequest)
    else
      var kind := cat.attributes[a].kind;
      if FileLike(kind) && v.Str? && Trim(v.s) != "" then
        var token := cat.fmt.uuidValue(Trim(v.s));
        if !cat.fmt.isUuid(Trim(v.s)) || token !in uploads || uploads[token].form != formId || uploads[token].claimed
        then Err(BadRequest)
        else if kind.Drawing? && !uploads[token].isImage then Err(BadRequest)
        else Ok((Str(uploads[token].key), uploads[token := uploads[token].(claimed := true)]))
      else if kind.BlockType? && !IsMissing(v) && !BlocksAllowed(cat, rows, form.event, participant, a, v)
      then Err(BadRequest)
      else Ok((v, uploads))
  }

  function CheckEntries(cat: Catalog, rows: map<RowKey, Value>, uploads: map<Id, Upload>, formId: IdText, form: Form,
                        participant: Option<Id>, entries: seq<Entry>): Result<(seq<Entry>, map<Id, Upload>)>
  {
    if entries == [] then Ok(([], uploads))
    else
      var first :- CheckEntry(cat, rows, uploads, formId, form, participant, entries[0]);
      var rest :- CheckEntries(cat, rows, first.1, formId, form, participant, entries[1..]);
      Ok(([(entries[0].0, first.0)] + rest.0, rest.1))
  }

  /** The submitted value, else the stored one of the participant the submission names. */
  function EffectiveValue(rows: map<RowKey, Value>, participant: Option<Id>, entries: seq<Entry>, a: Id): Value {
    if a in ToMap(entries) then ToMap(entries)[a]
    else if participant.Some? then RowOr(rows, (participant.value, a), Undefined)
    else Undefined
  }

  predicate HasSelectableBlock(cat: Catalog, a: Id) {
    exists b :: b in cat.blocks && cat.blocks[b].attribute == a && !cat.blocks[b].isRoot
  }

  /** A required attribute may be missing only when it is a block attribute without a selectable block. */
  predicate FieldSatisfied(cat: Catalog, field: Field, value: Value) {
    field.required && field.attribute in cat.attributes && IsMissing(value) ==>
      cat.attributes[field.attribute].kind.BlockType? && !HasSelectableBlock(cat, field.attribute)
  }

  predicate RequiredOk(cat: Catalog, rows: map<RowKey, Value>, form: Form, participant: Option<Id>,
                       entries: seq<Entry>)
  {
    forall i :: 0 <= i < |form.fields| ==>
      FieldSatisfied(cat, form.fields[i], EffectiveValue(rows, participant, entries, form.fields[i].attribute))
  }

  predicate KnownForm(cat: Catalog, formId: IdText) {
    cat.fmt.uuidValue(formId) in cat.forms
  }

  function FormOf(cat: Catalog, formId: IdText): Form
    requires KnownForm(cat, formId)
  {
    cat.forms[cat.fmt.uuidValue(formId)]
  }

  /** The checks a submission passes before anything is read from its attributes. */
  function Admit(cat: Catalog, eventId: Id, formId: IdText, sub: Submission, now: int): Result<Form> {
    if eventId !in cat.events then Err(NotFound)
    else if !KnownForm(cat, formId) || FormOf(cat, formId).event != eventId then Err(NotFound)
    else
      var form := FormOf(cat, formId);
      var open :- IsOpen(form, now);
      var isRegistration := IsRegistration(cat, eventId, formId);
      if !open then Err(BadRequest)
      else if isRegistration && sub.email.None? then Err(BadRequest)
      else if !isRegistration && sub.participant.None? then Err(BadRequest)
      else Ok(form)
  }

  /** The form's id is compared as text: spelled otherwise, the registration form takes updates. */
  predicate IsRegistration(cat: Catalog, eventId: Id, formId: IdText)
    requires eventId in cat.events
  {
    cat.events[eventId].registerForm == Some(formId)
  }

  /** What the outer transaction reads when it begins. */
  predicate LimitReached(cat: Catalog, db: Db, eventId: Id)
    requires eventId in cat.events
  {
    var limit := cat.events[eventId].limit;
    limit.Some? && limit.value <= |ParticipantsOf(db, eventId)|
  }

  /** The inner call: an update of the named participant, or a registration under a new id unless the event is full. */
  function SaveSubmission(cat: Catalog, db: Db, eventId: Id, formId: IdText, sub: Submission, full: bool,
                          entries: seq<Entry>, id: Id): Result<Db>
    requires cat.prefix != "" && eventId in cat.events
  {
    if !IsRegistration(cat, eventId, formId) && sub.participant.Some? then
      Update(cat, db, eventId, sub.participant.value, sub.email, Some(entries), true)
    else if IsRegistration(cat, eventId, formId) && sub.email.Some? then
      if full then Err(BadRequest)
      else Register(cat, db, eventId, sub.email.value, entries, true, id)
    else Err(Internal)
  }

  function FormSubmit(cat: Catalog, db: Db, eventId: Id, formId: IdText, sub: Submission, now: int, id: Id): Result<Db>
    requires cat.prefix != ""
  {
    var form :- Admit(cat, eventId, formId, sub, now);
    var checked :- CheckEntries(cat, db.rows, db.uploads, formId, form, sub.participant, Collect(sub.attributes));
    var (entries, uploads) := checked;
    if !RequiredOk(cat, db.rows, form, sub.participant, entries) then Err(BadRequest)
    else SaveSubmission(cat, db.(uploads := uploads), eventId, formId, sub, LimitReached(cat, db, eventId), entries, id)
  }
}
