/** What an accepted submission leaves behind, and what reading a participant and writing it back does. */
module Submissions {
  import opened Wrappers
  import opened Values
  import opened Normalizer
  import opened Storage
  import opened Store
  import opened Ownership
  import opened StoreRuns

  // Required attributes

  /** The participant an accepted submission saves to. */
  function SavedTo(cat: Catalog, eventId: Id, formId: IdText, sub: Submission, id: Id): Id
    requires eventId in cat.events
  {
    if IsRegistration(cat, eventId, formId) then id else sub.participant.GetOr(id)
  }

  /** Every required attribute of the form has a stored value, unless it is a block attribute nobody can choose from. */
  predicate Complete(cat: Catalog, rows: map<RowKey, Value>, form: Form, p: Id) {
    forall i :: 0 <= i < |form.fields| ==>
      FieldSatisfied(cat, form.fields[i], RowOr(rows, (p, form.fields[i].attribute), Undefined))
  }

  function Keys(entries: seq<Entry>): set<Id> {
    set e | e in entries :: e.0
  }

  predicate Submitted(sub: Submission, a: Id) {
    a in Keys(sub.attributes)
  }

  /** The value submitted for the attribute: the last one given. */
  function SubmittedValue(sub: Submission, a: Id): Value
    requires Submitted(sub, a)
  {
    CollectKeys(sub.attributes);
    KeysAreMapped(Collect(sub.attributes));
    ToMap(Collect(sub.attributes))[a]
  }

  lemma KeysAreMapped(entries: seq<Entry>)
    ensures ToMap(entries).Keys == Keys(entries)
  {
    forall a | a in Keys(entries) ensures a in ToMap(entries) {
      var e :| e in entries && e.0 == a;
      var i :| 0 <= i < |entries| && entries[i] == e;
      assert entries[i].0 in ToMap(entries);
    }
  }

  /** An infinite number: the normaliser accepts it, and a JSON column stores null for it. */
  predicate BecomesNull(cat: Catalog, a: Id, v: Value) {
    && a in cat.attributes && cat.attributes[a].kind.NumberType? && !IsMissing(v)
    && (ParsedNumber(cat.fmt, v).PosInf? || ParsedNumber(cat.fmt, v).NegInf?)
  }

  /** No required attribute is submitted as an infinite number. */
  predicate RequiredAreStored(cat: Catalog, form: Form, sub: Submission) {
    forall i :: 0 <= i < |form.fields| && form.fields[i].required && Submitted(sub, form.fields[i].attribute) ==>
      !BecomesNull(cat, form.fields[i].attribute, SubmittedValue(sub, form.fields[i].attribute))
  }

  lemma KeysOfParts(x: seq<Entry>, y: seq<Entry>)
    ensures Keys(x + y) == Keys(x) + Keys(y)
  {
    assert forall e :: e in x + y <==> e in x || e in y;
  }

  lemma {:induction false} PutKeys(entries: seq<Entry>, a: Id, v: Value)
    ensures Keys(Put(entries, a, v)) == Keys(entries) + {a}
  {
    assert Keys([(a, v)]) == {a};
    if entries != [] {
      var first, rest := [entries[0]], entries[1..];
      assert entries == first + rest && Keys(first) == {entries[0].0};
      KeysOfParts(first, rest);
      KeysOfParts([(a, v)], rest);
      PutKeys(rest, a, v);
      KeysOfParts(first, Put(rest, a, v));
    }
  }

  lemma {:induction false} CollectKeys(list: seq<Entry>)
    ensures Keys(Collect(list)) == Keys(list)
  {
    if list != [] {
      var init, last := list[..|list| - 1], list[|list| - 1];
      CollectKeys(init);
      PutKeys(Collect(init), last.0, last.1);
      assert list == init + [last] && Keys([last]) == {last.0};
      KeysOfParts(init, [last]);
    }
  }

  /** Which rows of the participant an accepted submission sets, and that it sets them to the normalised value. */
  lemma SavedRows(cat: Catalog, db: Db, eventId: Id, formId: IdText, sub: Submission, now: int, id: Id, a: Id)
    returns (checked: seq<Entry>)
    requires CatalogOk(cat) && RowsNormal(cat, db) && id !in db.participants
    requires FormSubmit(cat, db, eventId, formId, sub, now, id).Ok?
    ensures eventId in cat.events && KnownForm(cat, formId)
    ensures var rows := FormSubmit(cat, db, eventId, formId, sub, now, id).value.rows;
      var p := SavedTo(cat, eventId, formId, sub, id);
      && (Submitted(sub, a) <==> a in ToMap(checked))
      && (Submitted(sub, a) ==>
            && a in cat.attributes && (p, a) in rows && NormalizeFor(cat, a, ToMap(checked)[a]).Ok?
            && rows[(p, a)] == InJson(NormalizeFor(cat, a, ToMap(checked)[a]).value)
            && (!IsFileAttribute(cat, a) ==> ToMap(checked)[a] == SubmittedValue(sub, a)))
      && (!Submitted(sub, a) ==> RowOr(rows, (p, a), Undefined) == RowOr(db.rows, (p, a), Undefined))
      && (forall i :: 0 <= i < |FormOf(cat, formId).fields| ==>
            FieldSatisfied(cat, FormOf(cat, formId).fields[i],
                           EffectiveValue(db.rows, sub.participant, checked, FormOf(cat, formId).fields[i].attribute)))
  {
    var p, address, values;
    checked, p, address, values := AcceptedSubmission(cat, db, eventId, formId, sub, now, id);
    var entries := Collect(sub.attributes);
    CollectKeys(sub.attributes);
    CheckedKeys(cat, db.uploads, FormOf(cat, formId), entries, checked);
    var current := Current(cat, eventId, formId, p);
    if a in values {
      SavedIsSubmitted(cat, db, eventId, FormOf(cat, formId), current, entries, checked, a);
    } else if a in ToMap(checked) {
      SubmittedIsSaved(cat, db, eventId, formId, current, entries, checked, a);
    }
  }

  lemma SubmittedIsSaved(cat: Catalog, db: Db, eventId: Id, formId: IdText, current: Option<Id>, entries: seq<Entry>,
                         checked: seq<Entry>, a: Id)
    requires CatalogOk(cat) && KnownForm(cat, formId) && FormOf(cat, formId).event == eventId
    requires AllChecked(cat, db.uploads, FormOf(cat, formId), entries, checked)
    requires Prepare(cat, db.rows, eventId, checked, true, current).Ok?
    requires a in ToMap(checked)
    ensures a in ToMap(Prepare(cat, db.rows, eventId, checked, true, current).value)
  {
    var i := EntryOf(checked, a);
    assert CheckedAs(cat, db.uploads, FormOf(cat, formId), entries[i], checked[i]);
    assert InEvent(cat, eventId, checked[i].0);
    PreparedKeys(cat, db.rows, eventId, checked, true, current);
  }

  lemma SavedIsSubmitted(cat: Catalog, db: Db, eventId: Id, form: Form, current: Option<Id>, entries: seq<Entry>,
                         checked: seq<Entry>, a: Id)
    requires cat.prefix != "" && AllChecked(cat, db.uploads, form, entries, checked)
    requires Prepare(cat, db.rows, eventId, checked, true, current).Ok?
    requires a in ToMap(Prepare(cat, db.rows, eventId, checked, true, current).value)
    ensures a in ToMap(checked) && a in cat.attributes
    ensures NormalizeFor(cat, a, ToMap(checked)[a]).Ok?
    ensures ToMap(Prepare(cat, db.rows, eventId, checked, true, current).value)[a]
         == InJson(NormalizeFor(cat, a, ToMap(checked)[a]).value)
    ensures a in ToMap(entries) && (!IsFileAttribute(cat, a) ==> ToMap(checked)[a] == ToMap(entries)[a])
  {
    hide Prepare;
    CheckedKeys(cat, db.uploads, form, entries, checked);
    var j := SavedFrom(cat, db, eventId, form, current, entries, checked, a);
    assert checked[j].0 == a && ToMap(checked)[checked[j].0] == checked[j].1;
  }

  lemma CheckedKeys(cat: Catalog, uploads: map<Id, Upload>, form: Form, entries: seq<Entry>, checked: seq<Entry>)
    requires AllChecked(cat, uploads, form, entries, checked)
    ensures DistinctKeys(checked) && ToMap(checked).Keys == Keys(entries)
  {
    forall i | 0 <= i < |entries| ensures entries[i].0 == checked[i].0 {
      assert CheckedAs(cat, uploads, form, entries[i], checked[i]);
    }
    forall a | a in Keys(entries) ensures a in ToMap(checked) {
      var e :| e in entries && e.0 == a;
      var i :| 0 <= i < |entries| && entries[i] == e;
      assert checked[i].0 in ToMap(checked);
    }
    forall a | a in ToMap(checked) ensures a in Keys(entries) {
      var i :| 0 <= i < |checked| && checked[i].0 == a;
      assert entries[i] in entries;
    }
  }

  lemma NormalizedMissing(cat: Catalog, a: Id, v: Value)
    requires a in cat.attributes && NormalizeFor(cat, a, v).Ok?
    ensures IsMissing(InJson(NormalizeFor(cat, a, v).value)) <==> IsMissing(v) || BecomesNull(cat, a, v)
  {
    NormalizedIsWellFormed(cat.fmt, cat.attributes[a], BlocksOf(cat, a), v);
  }

  /** What is stored for a submitted field satisfies the form exactly when it is no required infinite number. */
  lemma SubmittedFieldIsStored(cat: Catalog, field: Field, value: Value, checked: Value, stored: Value)
    requires var a := field.attribute;
      && a in cat.attributes && NormalizeFor(cat, a, checked).Ok? &&
          stored == InJson(NormalizeFor(cat, a, checked).value)
      && (!IsFileAttribute(cat, a) ==> checked == value)
    requires FieldSatisfied(cat, field, checked)
    ensures FieldSatisfied(cat, field, stored) <==> !(field.required && BecomesNull(cat, field.attribute, value))
  {
    NormalizedMissing(cat, field.attribute, checked);
  }

  /**
   An update through a form leaves the participant complete unless it submits an infinite number for a required
   attribute; attributes that were not submitted keep their value.
   */
  lemma UpdateSubmissionIsCompleteExactly(cat: Catalog, db: Db, eventId: Id, formId: IdText, sub: Submission, now: int,
                                          id: Id)
    requires CatalogOk(cat) && RowsNormal(cat, db) && id !in db.participants
    requires FormSubmit(cat, db, eventId, formId, sub, now, id).Ok? && !IsRegistration(cat, eventId, formId)
    ensures sub.participant.Some?
    ensures var rows := FormSubmit(cat, db, eventId, formId, sub, now, id).value.rows;
      && (Complete(cat, rows, FormOf(cat, formId), sub.participant.value) <==>
          RequiredAreStored(cat, FormOf(cat, formId), sub))
      && forall a :: !Submitted(sub, a) ==>
            RowOr(rows, (sub.participant.value, a), Undefined) == RowOr(db.rows, (sub.participant.value, a), Undefined)
  {
    var form := FormOf(cat, formId);
    var p := sub.participant.value;
    var rows := FormSubmit(cat, db, eventId, formId, sub, now, id).value.rows;
    forall i | 0 <= i < |form.fields|
      ensures FieldSatisfied(cat, form.fields[i], RowOr(rows, (p, form.fields[i].attribute), Undefined))
         <==> !(form.fields[i].required && Submitted(sub, form.fields[i].attribute)
                && BecomesNull(cat, form.fields[i].attribute, SubmittedValue(sub, form.fields[i].attribute)))
    {
      var a := form.fields[i].attribute;
      var checked := SavedRows(cat, db, eventId, formId, sub, now, id, a);
      if a in ToMap(checked) {
        SubmittedFieldIsStored(cat, form.fields[i], SubmittedValue(sub, a), ToMap(checked)[a], rows[(p, a)]);
      }
    }
    forall a | !Submitted(sub, a) ensures RowOr(rows, (p, a), Undefined) == RowOr(db.rows, (p, a), Undefined) {
      var checked := SavedRows(cat, db, eventId, formId, sub, now, id, a);
    }
  }

  /** A required attribute may be left out of a registration only if nobody can choose a block for it. */
  predicate LeavesOutNothingRequired(cat: Catalog, form: Form, sub: Submission) {
    forall i :: 0 <= i < |form.fields| && !Submitted(sub, form.fields[i].attribute) ==>
        FieldSatisfied(cat, form.fields[i], Undefined)
  }

  /**
   The new participant is complete exactly when the registration itself left nothing required out, and submitted
   no infinite number for a required attribute.
   The check on the submission looks at the stored values of the participant the submission names,
   so naming one lets a registration through that leaves the new participant incomplete.
   */
  lemma RegistrationIsCompleteExactly(cat: Catalog, db: Db, eventId: Id, formId: IdText, sub: Submission, now: int,
                                      id: Id)
    requires CatalogOk(cat) && RowsNormal(cat, db) && id !in db.participants
    requires FormSubmit(cat, db, eventId, formId, sub, now, id).Ok? && IsRegistration(cat, eventId, formId)
    ensures Complete(cat, FormSubmit(cat, db, eventId, formId, sub, now, id).value.rows, FormOf(cat, formId), id)
       <==> LeavesOutNothingRequired(cat, FormOf(cat, formId), sub) && RequiredAreStored(cat, FormOf(cat, formId), sub)
    ensures sub.participant.None? ==> LeavesOutNothingRequired(cat, FormOf(cat, formId), sub)
  {
    var form := FormOf(cat, formId);
    var rows := FormSubmit(cat, db, eventId, formId, sub, now, id).value.rows;
    forall i | 0 <= i < |form.fields|
      ensures FieldSatisfied(cat, form.fields[i], RowOr(rows, (id, form.fields[i].attribute), Undefined))
         <==> if Submitted(sub, form.fields[i].attribute)
              then !(form.fields[i].required
                     && BecomesNull(cat, form.fields[i].attribute, SubmittedValue(sub, form.fields[i].attribute)))
              else FieldSatisfied(cat, form.fields[i], Undefined)
      ensures sub.participant.None? && !Submitted(sub, form.fields[i].attribute) ==>
          FieldSatisfied(cat, form.fields[i], Undefined)
    {
      var a := form.fields[i].attribute;
      var checked := SavedRows(cat, db, eventId, formId, sub, now, id, a);
      if a in ToMap(checked) {
        SubmittedFieldIsStored(cat, form.fields[i], SubmittedValue(sub, a), ToMap(checked)[a], rows[(id, a)]);
      }
    }
  }

  lemma RegisteredIsOneMore(cat: Catalog, db: Db, eventId: Id, email: string, entries: seq<Entry>, id: Id)
    requires cat.prefix != "" && id !in db.participants
    requires Register(cat, db, eventId, email, entries, true, id).Ok?
    ensures ParticipantsOf(Register(cat, db, eventId, email, entries, true, id).value, eventId)
         == ParticipantsOf(db, eventId) + {id}
  {
    hide Prepare;
    hide EmailTaken;
  }

  lemma RegistrationWasAdmitted(cat: Catalog, db: Db, eventId: Id, formId: IdText, sub: Submission, now: int, id: Id)
    returns (entries: seq<Entry>, uploads: map<Id, Upload>)
    requires cat.prefix != ""
    requires FormSubmit(cat, db, eventId, formId, sub, now, id).Ok? && IsRegistration(cat, eventId, formId)
    ensures !LimitReached(cat, db, eventId) && sub.email.Some?
    ensures FormSubmit(cat, db, eventId, formId, sub, now, id)
         == Register(cat, db.(uploads := uploads), eventId, sub.email.value, entries, true, id)
  {
    hide Register;
    hide Update;
    hide CheckEntries;
    hide RequiredOk;
    hide LimitReached;
    hide IsOpen;
    var checked := CheckEntries(cat, db.rows, db.uploads, formId, FormOf(cat, formId), sub.participant,
                                Collect(sub.attributes));
    entries, uploads := checked.value.0, checked.value.1;
  }

  /** One at a time, registrations through a form stay within the event's limit. */
  lemma RegistrationRespectsLimit(cat: Catalog, db: Db, eventId: Id, formId: IdText, sub: Submission, now: int, id: Id)
    requires cat.prefix != "" && id !in db.participants
    requires FormSubmit(cat, db, eventId, formId, sub, now, id).Ok? && IsRegistration(cat, eventId, formId)
    ensures cat.events[eventId].limit.Some? ==>
      |ParticipantsOf(FormSubmit(cat, db, eventId, formId, sub, now, id).value, eventId)|
        <= cat.events[eventId].limit.value
  {
    hide FormSubmit;
    hide Register;
    var entries, uploads := RegistrationWasAdmitted(cat, db, eventId, formId, sub, now, id);
    RegisteredIsOneMore(cat, db.(uploads := uploads), eventId, sub.email.value, entries, id);
  }

  // Reading and writing back

  /** What reading a participant shows for a stored value; file keys appear as URLs. */
  function Shown(cat: Catalog, a: Id, v: Value): Value {
    if IsFileAttribute(cat, a) && v.Str? && v.s != "" then Str(cat.prefix + v.s) else v
  }

  /** Values of participant `p`, all or some, as `n` rounds of showing present them. */
  predicate IsReadOf(cat: Catalog, db: Db, p: Id, n: nat, entries: seq<Entry>) {
    && DistinctKeys(entries)
    && forall i :: 0 <= i < |entries| ==>
        && (p, entries[i].0) in db.rows
        && entries[i].1 == ShownTimes(cat, entries[i].0, n, db.rows[(p, entries[i].0)])
  }

  function ShownTimes(cat: Catalog, a: Id, n: nat, v: Value): Value {
    if n == 0 then v else Shown(cat, a, ShownTimes(cat, a, n - 1, v))
  }

  lemma {:induction false} ShownTimesIsWrapped(cat: Catalog, a: Id, n: nat, v: Value)
    ensures ShownTimes(cat, a, n, v)
         == if IsFileAttribute(cat, a) && v.Str? && v.s != "" then Str(Wrapped(cat.prefix, n, v.s)) else v
  {
    if n > 0 {
      ShownTimesIsWrapped(cat, a, n - 1, v);
      if v.Str? && v.s != "" {
        WrappedNonEmpty(cat.prefix, n - 1, v.s);
      }
    }
  }

  lemma {:induction false} WrappedNonEmpty(prefix: string, n: nat, key: string)
    requires key != ""
    ensures Wrapped(prefix, n, key) != ""
  {
    if n > 0 {
      WrappedNonEmpty(prefix, n - 1, key);
    }
  }

  lemma ShownValueIsKept(cat: Catalog, db: Db, p: Id, n: nat, entry: Entry)
    requires CatalogOk(cat) && StoreOk(cat, db)
    requires (p, entry.0) in db.rows && entry.1 == ShownTimes(cat, entry.0, n, db.rows[(p, entry.0)])
    ensures entry.0 in cat.attributes && PrepareOne(cat, db.rows, false, Some(p), entry) == Ok(db.rows[(p, entry.0)])
  {
    var k := (p, entry.0);
    var v := db.rows[k];
    ShownTimesIsWrapped(cat, entry.0, n, v);
    if IsFileAttribute(cat, entry.0) && v.Str? {
      assert v.s != "";
      assert Owns(cat, db, AttributeRow(k), v.s);
      KeyOfWrapped(cat.prefix, n, v.s);
      KeyOfWrapped(cat.prefix, 0, v.s);
      WrappedNonEmpty(cat.prefix, n, v.s);
    }
  }

  lemma {:induction false} PrepareReturnsRows(cat: Catalog, db: Db, event: Id, p: Id, n: nat, entries: seq<Entry>)
    requires CatalogOk(cat) && StoreOk(cat, db)
    requires p in db.participants && db.participants[p].event == event
    requires forall i :: 0 <= i < |entries| ==>
        (p, entries[i].0) in db.rows && entries[i].1 == ShownTimes(cat, entries[i].0, n, db.rows[(p, entries[i].0)])
    ensures PrepareEach(cat, db.rows, event, entries, false, Some(p)).Ok?
    ensures var saved := PrepareEach(cat, db.rows, event, entries, false, Some(p)).value;
      && |saved| == |entries|
      && forall i :: 0 <= i < |saved| ==> saved[i] == (entries[i].0, db.rows[(p, entries[i].0)])
  {
    if entries != [] {
      ShownValueIsKept(cat, db, p, n, entries[0]);
      PrepareReturnsRows(cat, db, event, p, n, entries[1..]);
    }
  }

  lemma RewritingSameRows(cat: Catalog, db: Db, written: map<RowKey, Value>)
    requires cat.prefix != ""
    requires forall k :: k in written ==> k in db.rows && written[k] == db.rows[k]
    ensures WriteRows(cat, db, written) == db
  {
    assert db.rows + written == db.rows;
    assert ReplacedKeys(cat, db.rows, written) == {};
  }

  lemma OwnAddressIsFree(db: Db, p: Id)
    requires EmailsUnique(db) && p in db.participants
    ensures !EmailTaken(db.participants, db.participants[p].event, db.participants[p].email, Some(p))
    ensures db.participants[p := db.participants[p]] == db.participants
  {
  }

  lemma ToMapOfRows(db: Db, p: Id, saved: seq<Entry>)
    requires forall i :: 0 <= i < |saved| ==> (p, saved[i].0) in db.rows && saved[i].1 == db.rows[(p, saved[i].0)]
    ensures forall k :: k in RowsFor(p, ToMap(saved)) ==> k in db.rows && RowsFor(p, ToMap(saved))[k] == db.rows[k]
  {
    forall k | k in RowsFor(p, ToMap(saved)) ensures k in db.rows && ToMap(saved)[k.1] == db.rows[k] {
      var i := EntryOf(saved, k.1);
    }
  }

  /** Reading a participant and sending everything back changes no value and deletes no object. */
  lemma WritingBackChangesNothing(cat: Catalog, db: Db, event: Id, p: Id, n: nat, entries: seq<Entry>)
    requires CatalogOk(cat) && StoreOk(cat, db)
    requires p in db.participants && db.participants[p].event == event
    requires IsReadOf(cat, db, p, n, entries)
    ensures Update(cat, db, event, p, Some(db.participants[p].email), Some(entries), false) == Ok(db)
  {
    PrepareReturnsRows(cat, db, event, p, n, entries);
    forall i | 0 <= i < |entries| ensures cat.fmt.isUuid(entries[i].0) {
      assert (p, entries[i].0) in db.rows;
    }
    var saved := Prepare(cat, db.rows, event, entries, false, Some(p)).value;
    ToMapOfRows(db, p, saved);
    RewritingSameRows(cat, db, RowsFor(p, ToMap(saved)));
    OwnAddressIsFree(db, p);
    assert DistinctKeys(saved);
  }

  /**
   A stored value that is itself a URL is accepted back too, but the object it names then survives
   only if the value was a bare key: the row is rewritten to the bare key and the object deleted.
   */
  lemma WritingBackKeepsObjectExactly(cat: Catalog, db: Db, event: Id, p: Id, a: Id)
    requires CatalogOk(cat) && IsFileAttribute(cat, a) && InEvent(cat, event, a)
    requires p in db.participants && db.participants[p].event == event
    requires FileKey(cat, db.rows, (p, a)).Some? && FileKey(cat, db.rows, (p, a)).value != ""
    requires FileKey(cat, db.rows, (p, a)).value in db.bucket
    ensures var v := db.rows[(p, a)]; var key := KeyOf(cat.prefix, v.s);
      var answer := Update(cat, db, event, p, None, Some([(a, v)]), false);
      && answer.Ok?
      && answer.value.rows[(p, a)] == Str(key)
      && (key in answer.value.bucket <==> Bare(cat.prefix, v.s))
  {
    var v := db.rows[(p, a)];
    var key := KeyOf(cat.prefix, v.s);
    var entries := [(a, v)];
    assert PrepareOne(cat, db.rows, false, Some(p), (a, v)) == Ok(Str(key));
    PrepareSingle(cat, db.rows, event, (a, v), false, Some(p));
    var saved := Prepare(cat, db.rows, event, entries, false, Some(p)).value;
    assert saved == [(a, Str(key))];
    var written := RowsFor(p, ToMap(saved));
    assert saved[0].0 in ToMap(saved) && DistinctKeys(saved);
    assert written[(p, a)] == Str(key);
    if !Bare(cat.prefix, v.s) {
      assert key in ReplacedKeys(cat, db.rows, written);
    } else {
      assert ReplacedKeys(cat, db.rows, written) == {};
    }
  }
}
