/**
 The capacity of blocks, counted by the block: when every id is spelled as it is stored, no interleaving exceeds it;
 and for one submission at a time, exactly when it is exceeded, however ids are spelled.
 */
module BlockCapacity {
  import opened Wrappers
  import opened Values
  import opened Store
  import opened Ownership
  import opened StoreRuns
  import opened Submissions
  import opened Capacity

  // Ids spelled as stored

  /** Every block asked for is spelled as the database returns it; texts that are no ids do not matter. */
  predicate AsksAsStored(cat: Catalog, entries: seq<Entry>) {
    forall i, j :: 0 <= i < |entries| && IsBlockEntry(cat, entries[i]) && 0 <= j < |RequestedBlocks(entries[i].1)| ==>
      var text := RequestedBlocks(entries[i].1)[j];
      cat.fmt.isUuid(text) ==> cat.fmt.uuidValue(text) == text
  }

  predicate IsBlockAttribute(cat: Catalog, a: Id) {
    a in cat.attributes && cat.attributes[a].kind.BlockType?
  }

  /** Every stored block id is spelled as the database returns it. */
  ghost predicate RowsAsStored(cat: Catalog, rows: map<RowKey, Value>) {
    forall k, text :: k in rows && IsBlockAttribute(cat, k.1) && Holds(rows[k], text) ==> AsStored(cat.fmt, text)
  }

  lemma HoldsMeansHoldsBlock(cat: Catalog, rows: map<RowKey, Value>, k: RowKey, b: Id)
    requires RowsAsStored(cat, rows) && k in rows && IsBlockAttribute(cat, k.1) && cat.fmt.uuidValue(b) == b
    ensures Holds(rows[k], b) <==> HoldsBlock(cat.fmt, rows[k], b)
  {
    if Holds(rows[k], b) {
      var i :| 0 <= i < |rows[k].items| && rows[k].items[i] == Str(b);
    }
    if HoldsBlock(cat.fmt, rows[k], b) {
      var i :| 0 <= i < |rows[k].items| && rows[k].items[i].Str? && cat.fmt.uuidValue(rows[k].items[i].s) == b;
      var text := rows[k].items[i].s;
      assert Str(text) in rows[k].items && Holds(rows[k], text);
      assert AsStored(cat.fmt, text);
    }
  }

  /** Then a block is held exactly under the one spelling. */
  lemma OneSpelling(cat: Catalog, rows: map<RowKey, Value>, text: IdText)
    requires CatalogOk(cat) && RowsAsStored(cat, rows) && LimitedText(cat, text)
    ensures if cat.fmt.uuidValue(text) == text then SpelledRows(cat, rows, text) == HolderRows(cat, rows, text)
      else SpelledRows(cat, rows, text) == {}
  {
    var a := cat.blocks[cat.fmt.uuidValue(text)].attribute;
    assert IsBlockAttribute(cat, a);
    forall k | k in rows && k.1 == a
      ensures if cat.fmt.uuidValue(text) == text then Holds(rows[k], text) <==> HoldsBlock(cat.fmt, rows[k], text)
        else !Holds(rows[k], text)
    {
      if cat.fmt.uuidValue(text) == text {
        HoldsMeansHoldsBlock(cat, rows, k, text);
      } else {
        assert Holds(rows[k], text) ==> AsStored(cat.fmt, text);
      }
    }
  }

  lemma CapacityBySpelling(cat: Catalog, rows: map<RowKey, Value>)
    requires CatalogOk(cat) && RowsAsStored(cat, rows)
    ensures WithinCapacity(cat, rows) <==> SpellingsWithinCapacity(cat, rows)
  {
    forall text | LimitedText(cat, text)
      ensures WithinCapacity(cat, rows) ==> |SpelledRows(cat, rows, text)| <= Bound(cat, cat.fmt.uuidValue(text))
    {
      OneSpelling(cat, rows, text);
    }
    forall b | b in cat.blocks && Limited(cat, b)
      ensures SpellingsWithinCapacity(cat, rows) ==> |HolderRows(cat, rows, b)| <= Bound(cat, b)
    {
      assert LimitedText(cat, b);
      OneSpelling(cat, rows, b);
    }
  }

  // Every run

  /** What is prepared for a block attribute holds only ids as they were asked for. */
  lemma SavedAsAsked(cat: Catalog, rows: map<RowKey, Value>, event: Id, entries: seq<Entry>, current: Option<Id>,
                     a: Id, text: IdText)
    requires cat.prefix != "" && AsksAsStored(cat, entries) && IsBlockAttribute(cat, a)
    requires Prepare(cat, rows, event, entries, true, current).Ok?
    requires var values := ToMap(Prepare(cat, rows, event, entries, true, current).value);
      a in values && Holds(values[a], text)
    ensures AsStored(cat.fmt, text)
  {
    var w := ToMap(Prepare(cat, rows, event, entries, true, current).value)[a];
    var i := PreparedMap(cat, rows, event, entries, true, current, a);
    SavedBlocksWereRequested(cat, entries[i], w, text);
    var j :| 0 <= j < |RequestedBlocks(entries[i].1)| && RequestedBlocks(entries[i].1)[j] == text;
  }

  lemma WrittenAsStored(cat: Catalog, rows: map<RowKey, Value>, event: Id, entries: seq<Entry>, current: Option<Id>,
                        p: Id)
    requires cat.prefix != "" && RowsAsStored(cat, rows) && AsksAsStored(cat, entries)
    requires Prepare(cat, rows, event, entries, true, current).Ok?
    ensures RowsAsStored(cat, rows + RowsFor(p, ToMap(Prepare(cat, rows, event, entries, true, current).value)))
  {
    var values := ToMap(Prepare(cat, rows, event, entries, true, current).value);
    var rows' := rows + RowsFor(p, values);
    forall k, text | k in rows' && IsBlockAttribute(cat, k.1) && Holds(rows'[k], text) ensures AsStored(cat.fmt, text) {
      if k in RowsFor(p, values) {
        SavedAsAsked(cat, rows, event, entries, current, k.1, text);
      }
    }
  }

  ghost predicate AllAsStored(cat: Catalog, s: State) {
    RowsAsStored(cat, s.db.rows) && forall c :: c in s.clients ==> AsksAsStored(cat, s.clients[c].entries)
  }

  predicate BeginsAsStored(cat: Catalog, action: Action) {
    action.Begin? ==> AsksAsStored(cat, Collect(action.sub.attributes))
  }

  /** No step but the first changes what a submission asks for. */
  lemma EntriesStay(cat: Catalog, s: State, action: Action)
    requires cat.prefix != "" && Step(cat, s, action).Some?
    ensures forall c :: c in Step(cat, s, action).value.clients ==>
      var entries := Step(cat, s, action).value.clients[c].entries;
      if c in s.clients then entries == s.clients[c].entries
      else action.Begin? && entries == Collect(action.sub.attributes)
  {
    hide SaveSubmission;
    hide RemoveMany;
    hide CanSignIn;
    hide RequiredOk;
    hide Admit;
  }

  lemma SaveStaysAsStored(cat: Catalog, s: State, c: nat, id: Id)
    requires cat.prefix != "" && AllAsStored(cat, s) && SaveStep(cat, s, c, id).Some?
    ensures RowsAsStored(cat, SaveStep(cat, s, c, id).value.db.rows)
  {
    var client := s.clients[c];
    if SaveSubmission(cat, s.db, client.event, client.form, client.sub, client.full, client.entries, id).Ok? {
      var p, values, address := InnerCommit(cat, s.db, client, id);
      WrittenAsStored(cat, s.db.rows, client.event, client.entries, Current(cat, client.event, client.form, p), p);
    }
  }

  lemma StepStaysAsStored(cat: Catalog, s: State, action: Action)
    requires cat.prefix != "" && AllAsStored(cat, s) && BeginsAsStored(cat, action) && Step(cat, s, action).Some?
    ensures AllAsStored(cat, Step(cat, s, action).value)
  {
    var s' := Step(cat, s, action).value;
    EntriesStay(cat, s, action);
    assert RowsAsStored(cat, s'.db.rows) by {
      if action.Save? {
        SaveStaysAsStored(cat, s, action.c, action.id);
      } else {
        assert forall k :: k in s'.db.rows ==> k in s.db.rows && s'.db.rows[k] == s.db.rows[k];
      }
    }
  }

  lemma {:induction false} RunStaysAsStored(cat: Catalog, s: State, actions: seq<Action>)
    requires cat.prefix != "" && AllAsStored(cat, s) && Capacity.Run(cat, s, actions).Some?
    requires forall i :: 0 <= i < |actions| ==> BeginsAsStored(cat, actions[i])
    ensures AllAsStored(cat, Capacity.Run(cat, s, actions).value)
    decreases actions
  {
    if actions != [] {
      StepStaysAsStored(cat, s, actions[0]);
      RunStaysAsStored(cat, Step(cat, s, actions[0]).value, actions[1..]);
    }
  }

  /**
   However submissions and deletions interleave, no block is held by more participants than its capacity, as long as
   blocks are asked for under their stored spelling.
   */
  lemma CapacityNeverExceeded(cat: Catalog, db: Db, actions: seq<Action>)
    requires CatalogOk(cat) && WithinCapacity(cat, db.rows) && RowsAsStored(cat, db.rows)
    requires DisciplinedRun(cat, State(db, map[]), actions) && Capacity.Run(cat, State(db, map[]), actions).Some?
    requires forall i :: 0 <= i < |actions| ==> BeginsAsStored(cat, actions[i])
    ensures WithinCapacity(cat, Capacity.Run(cat, State(db, map[]), actions).value.db.rows)
  {
    CapacityBySpelling(cat, db.rows);
    SpellingNeverExceedsCapacity(cat, db, actions);
    RunStaysAsStored(cat, State(db, map[]), actions);
    CapacityBySpelling(cat, Capacity.Run(cat, State(db, map[]), actions).value.db.rows);
  }

  // One submission

  /** The value asks for the block, under some spelling. */
  predicate AsksIn(fmt: Formats, v: Value, b: Id) {
    !IsMissing(v) && exists j :: 0 <= j < |RequestedBlocks(v)| && fmt.uuidValue(RequestedBlocks(v)[j]) == b
  }

  /** The submission asks for the block in the block's own attribute. */
  predicate AsksFor(cat: Catalog, sub: Submission, b: Id)
    requires b in cat.blocks
  {
    Submitted(sub, cat.blocks[b].attribute) && AsksIn(cat.fmt, SubmittedValue(sub, cat.blocks[b].attribute), b)
  }

  predicate HasPlace(cat: Catalog, rows: map<RowKey, Value>, b: Id)
    requires Limited(cat, b)
  {
    |HolderRows(cat, rows, b)| < Bound(cat, b)
  }

  /** The participant's stored value holds the block, under some spelling. */
  predicate HoldsAlready(cat: Catalog, rows: map<RowKey, Value>, p: Id, b: Id)
    requires b in cat.blocks
  {
    var k := (p, cat.blocks[b].attribute);
    k in rows && HoldsBlock(cat.fmt, rows[k], b)
  }

  /** What normalisation keeps of a block submission: the same ids. */
  lemma NormalizedHoldsExactly(cat: Catalog, a: Id, v: Value, b: Id)
    requires IsBlockAttribute(cat, a) && NormalizeFor(cat, a, v).Ok?
    ensures HoldsBlock(cat.fmt, InJson(NormalizeFor(cat, a, v).value), b)
       <==> AsksIn(cat.fmt, v, b)
  {
    var w := InJson(NormalizeFor(cat, a, v).value);
    if !IsMissing(v) && w != Null {
      var ids := RequestedBlocks(v);
      assert w == Arr(StringArray(ids));
      if j :| 0 <= j < |ids| && cat.fmt.uuidValue(ids[j]) == b {
        assert w.items[j] == Str(ids[j]);
      }
    }
  }

  lemma HoldersBut(cat: Catalog, rows: map<RowKey, Value>, p: Id, b: Id)
    requires b in cat.blocks
    ensures |HolderRows(cat, rows, b)|
         == |HolderRows(cat, rows, b) - {(p, cat.blocks[b].attribute)}| + if HoldsAlready(cat, rows, p, b) then 1 else 0
  {
    hide HoldsBlock;
    var k := (p, cat.blocks[b].attribute);
    var others := HolderRows(cat, rows, b) - {k};
    if HoldsAlready(cat, rows, p, b) {
      assert HolderRows(cat, rows, b) == others + {k};
    } else {
      assert HolderRows(cat, rows, b) == others;
    }
  }

  lemma OtherHolders(cat: Catalog, rows: map<RowKey, Value>, rows': map<RowKey, Value>, p: Id, b: Id)
    requires b in cat.blocks && SameButFor(rows, rows', p)
    ensures var k := (p, cat.blocks[b].attribute);
      HolderRows(cat, rows, b) - {k} == HolderRows(cat, rows', b) - {k}
  {
    hide HoldsBlock;
  }

  /** The holders of a block after one participant's values have been written. */
  lemma HoldersAfter(cat: Catalog, rows: map<RowKey, Value>, rows': map<RowKey, Value>, p: Id, b: Id)
    requires b in cat.blocks && SameButFor(rows, rows', p)
    ensures |HolderRows(cat, rows', b)| + (if HoldsAlready(cat, rows, p, b) then 1 else 0)
         == |HolderRows(cat, rows, b)| + (if HoldsAlready(cat, rows', p, b) then 1 else 0)
  {
    hide HolderRows;
    hide HoldsAlready;
    HoldersBut(cat, rows, p, b);
    HoldersBut(cat, rows', p, b);
    OtherHolders(cat, rows, rows', p, b);
  }

  /** Only the participant's own rows differ. */
  ghost predicate SameButFor(rows: map<RowKey, Value>, rows': map<RowKey, Value>, p: Id) {
    forall k: RowKey :: k.0 != p ==> (k in rows <==> k in rows') && (k in rows ==> rows'[k] == rows[k])
  }

  /** Whom an accepted submission makes a holder: the participant saved to, of exactly the blocks asked for. */
  lemma SavedHolds(cat: Catalog, db: Db, eventId: Id, formId: IdText, sub: Submission, now: int, id: Id, b: Id)
    requires CatalogOk(cat) && RowsNormal(cat, db) && id !in db.participants && Limited(cat, b)
    requires FormSubmit(cat, db, eventId, formId, sub, now, id).Ok?
    ensures eventId in cat.events
    ensures var rows := FormSubmit(cat, db, eventId, formId, sub, now, id).value.rows;
      var p := SavedTo(cat, eventId, formId, sub, id);
      HoldsAlready(cat, rows, p, b) <==>
        if Submitted(sub, cat.blocks[b].attribute) then AsksFor(cat, sub, b) else HoldsAlready(cat, db.rows, p, b)
  {
    hide FormSubmit;
    hide RowsNormal;
    var a := cat.blocks[b].attribute;
    var checked := SavedRows(cat, db, eventId, formId, sub, now, id, a);
    if Submitted(sub, a) {
      NormalizedHoldsExactly(cat, a, SubmittedValue(sub, a), b);
    }
  }

  lemma OthersUntouched(cat: Catalog, db: Db, eventId: Id, formId: IdText, sub: Submission, now: int, id: Id)
    requires CatalogOk(cat) && RowsNormal(cat, db) && id !in db.participants
    requires FormSubmit(cat, db, eventId, formId, sub, now, id).Ok?
    ensures eventId in cat.events
    ensures SameButFor(db.rows, FormSubmit(cat, db, eventId, formId, sub, now, id).value.rows,
                       SavedTo(cat, eventId, formId, sub, id))
  {
    var checked, p, address, values := AcceptedSubmission(cat, db, eventId, formId, sub, now, id);
  }

  /** The participant saved to asks for the block and does not hold it yet. */
  predicate Takes(cat: Catalog, db: Db, eventId: Id, formId: IdText, sub: Submission, id: Id, b: Id)
    requires b in cat.blocks && eventId in cat.events
  {
    AsksFor(cat, sub, b) && !HoldsAlready(cat, db.rows, SavedTo(cat, eventId, formId, sub, id), b)
  }

  /** An accepted submission keeps every capacity exactly when each limited block it newly takes has a place left. */
  lemma SubmissionKeepsCapacityExactly(cat: Catalog, db: Db, eventId: Id, formId: IdText, sub: Submission, now: int,
                                       id: Id)
    requires CatalogOk(cat) && RowsNormal(cat, db) && id !in db.participants && WithinCapacity(cat, db.rows)
    requires FormSubmit(cat, db, eventId, formId, sub, now, id).Ok?
    ensures eventId in cat.events
    ensures WithinCapacity(cat, FormSubmit(cat, db, eventId, formId, sub, now, id).value.rows)
       <==> forall b :: b in cat.blocks && Limited(cat, b) && Takes(cat, db, eventId, formId, sub, id, b) ==>
              HasPlace(cat, db.rows, b)
  {
    var rows := FormSubmit(cat, db, eventId, formId, sub, now, id).value.rows;
    OthersUntouched(cat, db, eventId, formId, sub, now, id);
    var p := SavedTo(cat, eventId, formId, sub, id);
    forall b | b in cat.blocks && Limited(cat, b)
      ensures |HolderRows(cat, rows, b)| <= Bound(cat, b)
         <==> (Takes(cat, db, eventId, formId, sub, id, b) ==> HasPlace(cat, db.rows, b))
    {
      SavedHolds(cat, db, eventId, formId, sub, now, id, b);
      HoldersAfter(cat, db.rows, rows, p, b);
    }
  }

  // One submission, ids spelled as stored

  lemma {:induction false} EntriesAllowed(cat: Catalog, rows: map<RowKey, Value>, uploads: map<Id, Upload>,
                                          formId: IdText,
                                          form: Form, participant: Option<Id>, entries: seq<Entry>, i: nat)
    requires CheckEntries(cat, rows, uploads, formId, form, participant, entries).Ok?
    requires i < |entries| && IsBlockEntry(cat, entries[i])
    ensures BlocksAllowed(cat, rows, form.event, participant, entries[i].0, entries[i].1)
    decreases entries
  {
    if i > 0 {
      var first := CheckEntry(cat, rows, uploads, formId, form, participant, entries[0]).value;
      EntriesAllowed(cat, rows, first.1, formId, form, participant, entries[1..], i - 1);
    }
  }

  predicate NamedHolds(cat: Catalog, rows: map<RowKey, Value>, sub: Submission, b: Id)
    requires b in cat.blocks
  {
    sub.participant.Some? && HoldsAlready(cat, rows, sub.participant.value, b)
  }

  lemma HeldTextIsHeld(cat: Catalog, rows: map<RowKey, Value>, sub: Submission, text: IdText, b: Id)
    requires RowsAsStored(cat, rows) && Limited(cat, b) && cat.fmt.uuidValue(text) == b
    ensures HeldBefore(rows, sub.participant, cat.blocks[b].attribute, text) ==> NamedHolds(cat, rows, sub, b)
  {
    if HeldBefore(rows, sub.participant, cat.blocks[b].attribute, text) {
      var k := (sub.participant.value, cat.blocks[b].attribute);
      var i :| 0 <= i < |rows[k].items| && rows[k].items[i] == Str(text);
    }
  }

  /** A free place was counted under the stored spelling. */
  lemma CountedHasPlace(cat: Catalog, rows: map<RowKey, Value>, event: Id, a: Id, b: Id)
    requires CatalogOk(cat) && RowsAsStored(cat, rows) && Limited(cat, b) && CanSignIn(cat, rows, event, a, b)
    ensures HasPlace(cat, rows, b)
  {
    assert LimitedText(cat, b);
    OneSpelling(cat, rows, b);
    CountIncludesHolders(cat, rows, b);
  }

  lemma AcceptedIsChecked(cat: Catalog, db: Db, eventId: Id, formId: IdText, sub: Submission, now: int, id: Id)
    requires cat.prefix != "" && FormSubmit(cat, db, eventId, formId, sub, now, id).Ok?
    ensures KnownForm(cat, formId)
    ensures CheckEntries(cat, db.rows, db.uploads, formId, FormOf(cat, formId), sub.participant,
        Collect(sub.attributes)).Ok?
  {
  }

  lemma EntryTextIsAllowed(cat: Catalog, db: Db, formId: IdText, form: Form, participant: Option<Id>,
                           entries: seq<Entry>, i: nat, j: nat)
    requires AsksAsStored(cat, entries) && i < |entries| && IsBlockEntry(cat, entries[i])
    requires j < |RequestedBlocks(entries[i].1)|
    requires CheckEntries(cat, db.rows, db.uploads, formId, form, participant, entries).Ok?
    ensures var text := RequestedBlocks(entries[i].1)[j];
      && (cat.fmt.isUuid(text) ==> cat.fmt.uuidValue(text) == text)
      && BlockAllowed(cat, db.rows, form.event, participant, entries[i].0, text)
  {
    EntriesAllowed(cat, db.rows, db.uploads, formId, form, participant, entries, i);
  }

  lemma SubmittedEntry(sub: Submission, a: Id) returns (i: nat)
    requires Submitted(sub, a)
    ensures i < |Collect(sub.attributes)| && Collect(sub.attributes)[i] == (a, SubmittedValue(sub, a))
  {
    CollectKeys(sub.attributes);
    KeysAreMapped(Collect(sub.attributes));
    i := EntryOf(Collect(sub.attributes), a);
  }

  lemma AskedText(fmt: Formats, v: Value, b: Id) returns (j: nat)
    requires AsksIn(fmt, v, b)
    ensures j < |RequestedBlocks(v)| && fmt.uuidValue(RequestedBlocks(v)[j]) == b
  {
    j :| 0 <= j < |RequestedBlocks(v)| && fmt.uuidValue(RequestedBlocks(v)[j]) == b;
  }

  /** The text a block was asked for with, and that it passed the check. */
  lemma AskedIsAllowed(cat: Catalog, db: Db, formId: IdText, form: Form, sub: Submission, b: Id) returns (text: IdText)
    requires Limited(cat, b) && AsksFor(cat, sub, b) && AsksAsStored(cat, Collect(sub.attributes))
    requires CheckEntries(cat, db.rows, db.uploads, formId, form, sub.participant, Collect(sub.attributes)).Ok?
    ensures cat.fmt.uuidValue(text) == b && (cat.fmt.isUuid(text) ==> text == b)
    ensures BlockAllowed(cat, db.rows, form.event, sub.participant, cat.blocks[b].attribute, text)
  {
    var i := SubmittedEntry(sub, cat.blocks[b].attribute);
    var j := AskedText(cat.fmt, SubmittedValue(sub, cat.blocks[b].attribute), b);
    EntryTextIsAllowed(cat, db, formId, form, sub.participant, Collect(sub.attributes), i, j);
    text := RequestedBlocks(Collect(sub.attributes)[i].1)[j];
  }

  /** A block was counted before it was granted, unless the participant named holds it. */
  lemma CheckedBlockHasPlace(cat: Catalog, db: Db, eventId: Id, formId: IdText, sub: Submission, now: int, id: Id,
                             b: Id)
    requires CatalogOk(cat) && RowsAsStored(cat, db.rows) && AsksAsStored(cat, Collect(sub.attributes))
    requires FormSubmit(cat, db, eventId, formId, sub, now, id).Ok?
    requires Limited(cat, b) && AsksFor(cat, sub, b) && !NamedHolds(cat, db.rows, sub, b)
    ensures HasPlace(cat, db.rows, b)
  {
    AcceptedIsChecked(cat, db, eventId, formId, sub, now, id);
    var text := AskedIsAllowed(cat, db, formId, FormOf(cat, formId), sub, b);
    HeldTextIsHeld(cat, db.rows, sub, text, b);
    CountedHasPlace(cat, db.rows, FormOf(cat, formId).event, cat.blocks[b].attribute, b);
  }

  /**
   With ids spelled as stored, an accepted registration keeps every capacity exactly when no block it asks for is
   both full and held by the participant it names; naming nobody, it always does.
   */
  lemma RegistrationKeepsCapacityExactly(cat: Catalog, db: Db, eventId: Id, formId: IdText, sub: Submission, now: int,
                                         id: Id)
    requires CatalogOk(cat) && RowsNormal(cat, db) && id !in db.participants && WithinCapacity(cat, db.rows)
    requires RowsAsStored(cat, db.rows) && AsksAsStored(cat, Collect(sub.attributes))
    requires FormSubmit(cat, db, eventId, formId, sub, now, id).Ok? && IsRegistration(cat, eventId, formId)
    ensures WithinCapacity(cat, FormSubmit(cat, db, eventId, formId, sub, now, id).value.rows)
       <==> forall b ::
              b in cat.blocks && Limited(cat, b) && AsksFor(cat, sub, b) && NamedHolds(cat, db.rows, sub, b) ==>
                HasPlace(cat, db.rows, b)
  {
    SubmissionKeepsCapacityExactly(cat, db, eventId, formId, sub, now, id);
    forall b | b in cat.blocks && Limited(cat, b) && AsksFor(cat, sub, b)
      ensures Takes(cat, db, eventId, formId, sub, id, b)
      ensures !NamedHolds(cat, db.rows, sub, b) ==> HasPlace(cat, db.rows, b)
    {
      if !NamedHolds(cat, db.rows, sub, b) {
        CheckedBlockHasPlace(cat, db, eventId, formId, sub, now, id, b);
      }
    }
  }

  /** With ids spelled as stored, an accepted update always keeps every capacity. */
  lemma UpdateKeepsCapacity(cat: Catalog, db: Db, eventId: Id, formId: IdText, sub: Submission, now: int, id: Id)
    requires CatalogOk(cat) && RowsNormal(cat, db) && id !in db.participants && WithinCapacity(cat, db.rows)
    requires RowsAsStored(cat, db.rows) && AsksAsStored(cat, Collect(sub.attributes))
    requires FormSubmit(cat, db, eventId, formId, sub, now, id).Ok? && !IsRegistration(cat, eventId, formId)
    ensures WithinCapacity(cat, FormSubmit(cat, db, eventId, formId, sub, now, id).value.rows)
  {
    SubmissionKeepsCapacityExactly(cat, db, eventId, formId, sub, now, id);
    forall b | b in cat.blocks && Limited(cat, b) && Takes(cat, db, eventId, formId, sub, id, b)
      ensures HasPlace(cat, db.rows, b)
    {
      CheckedBlockHasPlace(cat, db, eventId, formId, sub, now, id, b);
    }
  }
}
