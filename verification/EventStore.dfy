/** The services as they run: loops over the submitted entries, rows and objects, proved against `Store`. */
module EventStore {
  import opened Wrappers
  import opened Text
  import opened Values
  import opened Normalizer
  import opened Storage
  import opened Store
  import opened Ownership
  import opened StoreRuns

  function Prepend<T>(done: seq<T>, rest: Result<seq<T>>): Result<seq<T>> {
    if rest.Ok? then Ok(done + rest.value) else rest
  }

  /** A check of the remaining entries, with the entries already checked put in front. */
  function WithEntries(done: seq<Entry>,
                       rest: Result<(seq<Entry>, map<Id, Upload>)>): Result<(seq<Entry>, map<Id, Upload>)>
  {
    if rest.Ok? then Ok((done + rest.value.0, rest.value.1)) else rest
  }

  lemma PrependEntries(done: seq<Entry>, rest: Result<(seq<Entry>, map<Id, Upload>)>)
    requires done == []
    ensures WithEntries(done, rest) == rest
  {
    if rest.Ok? {
      assert done + rest.value.0 == rest.value.0;
    }
  }

  lemma WithEntriesStep(done: seq<Entry>, x: Entry, rest: Result<(seq<Entry>, map<Id, Upload>)>)
    ensures WithEntries(done + [x], rest) == WithEntries(done, WithEntries([x], rest))
  {
    if rest.Ok? {
      assert done + [x] + rest.value.0 == done + ([x] + rest.value.0);
    }
  }

  function KeysOf(prefix: string, values: seq<string>): set<string>
    requires prefix != ""
  {
    set v | v in values :: KeyOf(prefix, v)
  }

  /** The objects the given rows name. */
  function NamedKeys(cat: Catalog, rows: map<RowKey, Value>, keys: set<RowKey>): set<string>
    requires cat.prefix != ""
  {
    set k | k in keys && FileKey(cat, rows, k).Some? :: FileKey(cat, rows, k).value
  }

  lemma NamedKeysStep(cat: Catalog, rows: map<RowKey, Value>, keys: set<RowKey>, k: RowKey)
    requires cat.prefix != ""
    ensures NamedKeys(cat, rows, keys + {k})
         == NamedKeys(cat, rows, keys) + if FileKey(cat, rows, k).Some? then {FileKey(cat, rows, k).value} else {}
  {
  }

  /** The rows that writing `written` changes. */
  function Changed(rows: map<RowKey, Value>, written: map<RowKey, Value>, keys: set<RowKey>): set<RowKey> {
    set k | k in keys && k in rows && k in written && rows[k] != written[k]
  }

  lemma ReplacedAreNamed(cat: Catalog, rows: map<RowKey, Value>, written: map<RowKey, Value>, existing: set<RowKey>)
    requires cat.prefix != "" && existing == set k | k in rows && k in written && IsFileAttribute(cat, k.1) :: k
    ensures NamedKeys(cat, rows, Changed(rows, written, existing)) == ReplacedKeys(cat, rows, written)
  {
  }

  lemma PrependStep<T>(done: seq<T>, x: T, rest: Result<seq<T>>)
    ensures Prepend(done + [x], rest) == Prepend(done, Prepend([x], rest))
  {
    if rest.Ok? {
      assert done + [x] + rest.value == done + ([x] + rest.value);
    }
  }

  lemma PrependNothing<T>(rest: Result<seq<T>>)
    ensures Prepend([], rest) == rest
  {
    if rest.Ok? {
      assert [] + rest.value == rest.value;
    }
  }

  lemma DeleteThenWrite(rows: map<RowKey, Value>, written: map<RowKey, Value>)
    ensures rows - written.Keys + written == rows + written
  {
  }

  class EventStore {
    const cat: Catalog
    var participants: map<Id, Participant>
    var rows: map<RowKey, Value>
    var uploads: map<Id, Upload>
    var bucket: set<string>

    function Snapshot(): Db
      reads this
    {
      Db(participants, rows, uploads, bucket)
    }

    /** Values in normal form, addresses unique, and one owner for every object. */
    ghost predicate Valid()
      reads this
    {
      CatalogOk(cat) && StoreOk(cat, Snapshot())
    }

    constructor (cat: Catalog)
      requires CatalogOk(cat)
      ensures Valid() && this.cat == cat && Snapshot() == Db(map[], map[], map[], {})
    {
      this.cat := cat;
      participants, rows, uploads, bucket := map[], map[], map[], {};
    }

    method PrepareAttributesForSave(event: Id, entries: seq<Entry>, trusted: bool, current: Option<Id>)
      returns (r: Result<seq<Entry>>)
      requires cat.prefix != ""
      ensures r == Prepare(cat, rows, event, entries, trusted, current)
    {
      if !KeysAreUuids(cat.fmt, entries) {
        return Err(Internal);
      }
      var saved: seq<Entry> := [];
      var i := 0;
      assert entries[0..] == entries;
      PrependNothing(PrepareEach(cat, rows, event, entries, trusted, current));
      while i < |entries|
        invariant 0 <= i <= |entries|
        invariant PrepareEach(cat, rows, event, entries, trusted, current)
               == Prepend(saved, PrepareEach(cat, rows, event, entries[i..], trusted, current))
      {
        var a := entries[i].0;
        assert entries[i..][0] == entries[i] && entries[i..][1..] == entries[i + 1..];
        if a in cat.attributes && cat.attributes[a].event == event {
          var v := PrepareOne(cat, rows, trusted, current, entries[i]);
          if v.Err? {
            return Err(v.error);
          }
          PrependStep(saved, (a, v.value), PrepareEach(cat, rows, event, entries[i + 1..], trusted, current));
          saved := saved + [(a, v.value)];
        }
        i := i + 1;
      }
      assert entries[i..] == [] && saved + [] == saved;
      return Ok(saved);
    }

    /** `for (const key of keys) storage.delete(bucket, extractKey(bucket, key))` */
    method DeleteObjects(keys: seq<string>)
      requires cat.prefix != ""
      modifies this`bucket
      ensures bucket == old(bucket) - KeysOf(cat.prefix, keys)
    {
      var i := 0;
      while i < |keys|
        invariant 0 <= i <= |keys|
        invariant bucket == old(bucket) - KeysOf(cat.prefix, keys[..i])
      {
        var key := ExtractKey(cat.prefix, keys[i]);
        assert keys[..i + 1] == keys[..i] + [keys[i]];
        bucket := bucket - {key};
        i := i + 1;
      }
      assert keys[..i] == keys;
    }

    /** The stored file values that writing `written` replaces, in some order. */
    method StaleFileValues(written: map<RowKey, Value>) returns (keys: seq<string>)
      requires cat.prefix != ""
      ensures KeysOf(cat.prefix, keys) == ReplacedKeys(cat, rows, written)
    {
      keys := [];
      var existing := set k | k in rows && k in written && IsFileAttribute(cat, k.1) :: k;
      var pending := existing;
      while pending != {}
        invariant pending <= existing
        invariant KeysOf(cat.prefix, keys) == NamedKeys(cat, rows, Changed(rows, written, existing - pending))
        decreases pending
      {
        var k :| k in pending;
        if rows[k] != written[k] {
          NamedKeysStep(cat, rows, Changed(rows, written, existing - pending), k);
          assert Changed(rows, written, existing - (pending - {k})) == Changed(rows, written, existing - pending) + {k};
          if rows[k].Str? && rows[k].s != "" {
            keys := keys + [rows[k].s];
          }
        } else {
          assert Changed(rows, written, existing - (pending - {k})) == Changed(rows, written, existing - pending);
        }
        pending := pending - {k};
      }
      ReplacedAreNamed(cat, rows, written, existing);
      assert existing - {} == existing;
    }

    /** File values are trusted inside a form submission only; `id` is the id of the new participant. */
    method Register(event: Id, email: string, entries: seq<Entry>, trusted: bool, id: Id) returns (r: Result<()>)
      requires CatalogOk(cat) && id !in participants
      modifies this
      ensures Answers(old(Snapshot()), Store.Register(cat, old(Snapshot()), event, email, entries, trusted, id),
          Snapshot(), r)
      ensures old(Valid()) && !trusted ==> Valid()
    {
      hide StoreOk;
      ghost var before := Snapshot();
      if event !in cat.events {
        return Err(NotFound);
      }
      var saved := PrepareAttributesForSave(event, entries, trusted, None);
      if saved.Err? {
        return Err(saved.error);
      }
      if EmailTaken(participants, event, email, None) || !DistinctKeys(saved.value) {
        return Err(Conflict);
      }
      participants := participants[id := Participant(event, email)];
      rows := rows + RowsFor(id, ToMap(saved.value));
      if StoreOk(cat, before) && !trusted {
        UntrustedRegisterKeepsStore(cat, before, event, email, entries, id);
      }
      return Ok(());
    }

    method Update(event: Id, p: Id, email: Option<string>, entries: Option<seq<Entry>>, trusted: bool)
      returns (r: Result<()>)
      requires CatalogOk(cat)
      modifies this
      ensures Answers(old(Snapshot()), Store.Update(cat, old(Snapshot()), event, p, email, entries, trusted),
          Snapshot(), r)
      ensures old(Valid()) && !trusted ==> Valid()
    {
      hide StoreOk;
      ghost var before := Snapshot();
      if p !in participants || participants[p].event != event {
        return Err(NotFound);
      }
      var saved: seq<Entry> := [];
      if entries.Some? {
        var prepared := PrepareAttributesForSave(event, entries.value, trusted, Some(p));
        if prepared.Err? {
          return Err(prepared.error);
        }
        saved := prepared.value;
      }
      if (email.Some? && EmailTaken(participants, event, email.value, Some(p))) || !DistinctKeys(saved) {
        return Err(Conflict);
      }
      var written := RowsFor(p, ToMap(saved));
      var fileKeysToDelete := StaleFileValues(written);
      DeleteThenWrite(rows, written);
      rows := rows - written.Keys;
      rows := rows + written;
      participants := participants[p := Participant(event, email.GetOr(participants[p].email))];
      DeleteObjects(fileKeysToDelete);
      if StoreOk(cat, before) && !trusted {
        UntrustedUpdateKeepsStore(cat, before, event, p, email, entries);
      }
      return Ok(());
    }

    method BulkUpdateAttributes(event: Id, a: IdText, newValue: Value, ids: seq<IdText>) returns (r: Result<()>)
      requires Valid()
      modifies this
      ensures Valid()
      ensures Answers(old(Snapshot()), Store.BulkUpdate(cat, old(Snapshot()), event, a, newValue, ids), Snapshot(), r)
    {
      hide Prepare;
      hide StoreOk;
      hide NamesEach;
      hide CountMatching;
      ghost var before := Snapshot();
      var found := cat.fmt.uuidValue(a);
      if found !in cat.attributes || cat.attributes[found].event != event {
        return Err(NotFound);
      }
      var unique := Deduplicate(ids);
      DeduplicatedNamesEach(cat.fmt, ids, unique, ParticipantsOf(Snapshot(), event));
      if CountMatching(UuidValues(cat.fmt, unique), ParticipantsOf(Snapshot(), event)) != |unique| {
        return Err(BadRequest);
      }
      var prepared := PrepareAttributesForSave(event, [(a, newValue)], false, None);
      if prepared.Err? {
        return Err(prepared.error);
      }
      if prepared.value == [] {
        return Err(BadRequest);
      }
      var written := SameForAll(UuidValues(cat.fmt, ids), prepared.value[0].0, prepared.value[0].1);
      var fileKeysToDelete := StaleFileValues(written);
      DeleteThenWrite(rows, written);
      rows := rows - written.Keys;
      rows := rows + written;
      DeleteObjects(fileKeysToDelete);
      BulkUpdateKeepsStore(cat, before, event, a, newValue, ids);
      return Ok(());
    }

    method RemoveMany(event: Id, ids: set<Id>)
      requires Valid()
      modifies this
      ensures Valid()
      ensures Snapshot() == Store.RemoveMany(cat, old(Snapshot()), event, ids)
    {
      hide StoreOk;
      RemoveManyKeepsStore(cat, Snapshot(), event, ids);
      var gone := set p | p in ids && p in participants && participants[p].event == event;
      var dropped := set k | k in rows && k.0 in gone;
      participants := participants - gone;
      var pending := dropped;
      while pending != {}
        invariant pending <= dropped
        invariant rows == old(rows) && uploads == old(uploads) && participants == old(participants) - gone
        invariant bucket == old(bucket) - NamedKeys(cat, rows, dropped - pending)
        decreases pending
      {
        var k :| k in pending;
        NamedKeysStep(cat, rows, dropped - pending, k);
        assert dropped - (pending - {k}) == dropped - pending + {k};
        if rows[k].Str? && rows[k].s != "" && IsFileAttribute(cat, k.1) {
          var key := ExtractKey(cat.prefix, rows[k].s);
          bucket := bucket - {key};
        }
        pending := pending - {k};
      }
      assert dropped - {} == dropped;
      rows := rows - dropped;
    }

    method Remove(event: Id, p: Id) returns (r: Result<()>)
      requires Valid()
      modifies this
      ensures Valid()
      ensures Answers(old(Snapshot()), Store.Remove(cat, old(Snapshot()), event, p), Snapshot(), r)
    {
      if p !in participants || participants[p].event != event {
        return Err(NotFound);
      }
      RemoveMany(event, {p});
      return Ok(());
    }

    /** `key` is the name the storage chose, `token` the id of the new row. */
    method UploadSingleFile(limits: UploadLimits, form: Id, size: int, mime: string, key: string, token: Id, now: int)
      returns (r: Result<()>)
      requires Valid() && key !in bucket && GoodKey(cat, key) && token !in uploads
      modifies this
      ensures Valid()
      ensures Answers(old(Snapshot()), Store.UploadFile(old(Snapshot()), limits, form, size, mime, key, token, now),
          Snapshot(), r)
    {
      if size > limits.maxSize || mime !in limits.allowedMimes {
        return Err(BadRequest);
      }
      UploadKeepsStore(cat, Snapshot(), limits, form, size, mime, key, token, now);
      bucket := bucket + {key};
      uploads := uploads[token := Upload(key, form, "image/" <= mime, now, false)];
      return Ok(());
    }

    method ReapExpiredFiles(expiry: int)
      requires Valid()
      modifies this
      ensures Valid()
      ensures Snapshot() == Store.Reap(old(Snapshot()), expiry)
    {
      ghost var before := Snapshot();
      var expired := set t | t in uploads && !uploads[t].claimed && uploads[t].createdAt < expiry;
      var pending := expired;
      while pending != {}
        invariant pending <= expired
        invariant rows == old(rows) && uploads == old(uploads) && participants == old(participants)
        invariant bucket == old(bucket) - set t | t in expired - pending :: uploads[t].key
        decreases pending
      {
        var t :| t in pending;
        bucket := bucket - {uploads[t].key};
        pending := pending - {t};
      }
      uploads := uploads - expired;
      assert Snapshot() == Store.Reap(before, expiry);
      ReapKeepsStore(cat, before, expiry);
    }

    method CanSignInToBlock(event: Id, a: Id, text: IdText) returns (ok: bool)
      ensures ok == CanSignIn(cat, rows, event, a, text)
    {
      var b := cat.fmt.uuidValue(text);
      if b !in cat.blocks || cat.blocks[b].attribute != a || a !in cat.attributes || cat.attributes[a].event != event {
        return false;
      }
      if cat.blocks[b].isRoot {
        return false;
      }
      if cat.blocks[b].capacity.None? {
        return true;
      }
      var count := CountHolders(rows, text);
      return count < cat.blocks[b].capacity.value;
    }

    /** The loop over the ids of one block submission. */
    method CheckBlocks(event: Id, participant: Option<Id>, a: Id, ids: seq<IdText>) returns (ok: bool)
      ensures ok == forall i :: 0 <= i < |ids| ==> BlockAllowed(cat, rows, event, participant, a, ids[i])
    {
      var i := 0;
      while i < |ids|
        invariant 0 <= i <= |ids|
        invariant forall j :: 0 <= j < i ==> BlockAllowed(cat, rows, event, participant, a, ids[j])
      {
        if !HeldBefore(rows, participant, a, ids[i]) {
          var canSignIn := cat.fmt.isUuid(ids[i]);
          if canSignIn {
            canSignIn := CanSignInToBlock(event, a, ids[i]);
          }
          if !canSignIn {
            return false;
          }
        }
        i := i + 1;
      }
      return true;
    }

    /** The loop over the submitted entries: claims upload tokens, checks blocks, puts file keys in place of tokens. */
    method CheckSubmitted(formId: IdText, form: Form, participant: Option<Id>, entries: seq<Entry>)
      returns (r: Result<(seq<Entry>, map<Id, Upload>)>)
      ensures r == CheckEntries(cat, rows, uploads, formId, form, participant, entries)
    {
      hide RequestedBlocks;
      hide BlockAllowed;
      var checked: seq<Entry> := [];
      var claimed := uploads;
      var i := 0;
      assert entries[0..] == entries;
      PrependEntries([], CheckEntries(cat, rows, uploads, formId, form, participant, entries));
      while i < |entries|
        invariant 0 <= i <= |entries|
        invariant CheckEntries(cat, rows, uploads, formId, form, participant, entries)
               == WithEntries(checked, CheckEntries(cat, rows, claimed, formId, form, participant, entries[i..]))
      {
        var (a, v) := entries[i];
        assert entries[i..][0] == entries[i] && entries[i..][1..] == entries[i + 1..];
        if !HasField(form, a) || a !in cat.attributes {
          return Err(BadRequest);
        }
        var value := v;
        var kind := cat.attributes[a].kind;
        ghost var before := claimed;
        if FileLike(kind) && v.Str? && Trim(v.s) != "" {
          var token := cat.fmt.uuidValue(Trim(v.s));
          if !cat.fmt.isUuid(Trim(v.s)) || token !in claimed || claimed[token].form != formId ||
              claimed[token].claimed {
            return Err(BadRequest);
          }
          if kind.Drawing? && !claimed[token].isImage {
            return Err(BadRequest);
          }
          value := Str(claimed[token].key);
          claimed := claimed[token := claimed[token].(claimed := true)];
        }
        if kind.BlockType? && !IsMissing(v) {
          var allowed := CheckBlocks(form.event, participant, a, RequestedBlocks(v));
          if !allowed {
            return Err(BadRequest);
          }
        }
        assert CheckEntry(cat, rows, before, formId, form, participant, entries[i]) == Ok((value, claimed));
        WithEntriesStep(checked, (a, value),
            CheckEntries(cat, rows, claimed, formId, form, participant, entries[i + 1..]));
        checked := checked + [(a, value)];
        i := i + 1;
      }
      assert entries[i..] == [] && checked + [] == checked;
      return Ok((checked, claimed));
    }

    /** `id` is the id a registration gets; a blank file value is the one thing that breaks the store. */
    method FormSubmit(eventId: Id, formId: IdText, sub: Submission, now: int, id: Id) returns (r: Result<()>)
      requires Valid() && id !in participants
      modifies this
      ensures Valid() <==> r.Err? || !HasBlankFile(cat, Collect(sub.attributes))
      ensures Answers(old(Snapshot()), Store.FormSubmit(cat, old(Snapshot()), eventId, formId, sub, now, id),
          Snapshot(), r)
    {
      hide StoreOk;
      ghost var before := Snapshot();
      var admitted := Admit(cat, eventId, formId, sub, now);
      if admitted.Err? {
        return Err(admitted.error);
      }
      var form := admitted.value;
      var full := LimitReached(cat, Snapshot(), eventId);
      var submitted := CheckSubmitted(formId, form, sub.participant, Collect(sub.attributes));
      if submitted.Err? {
        return Err(submitted.error);
      }
      var (entries, claimed) := submitted.value;
      var i := 0;
      while i < |form.fields|
        invariant 0 <= i <= |form.fields|
        invariant forall j :: 0 <= j < i ==>
          FieldSatisfied(cat, form.fields[j], EffectiveValue(rows, sub.participant, entries, form.fields[j].attribute))
      {
        if !FieldSatisfied(cat, form.fields[i],
            EffectiveValue(rows, sub.participant, entries, form.fields[i].attribute)) {
          return Err(BadRequest);
        }
        i := i + 1;
      }
      var unclaimed := uploads;
      uploads := claimed;
      r := SaveSubmission(eventId, formId, sub, full, entries, id);
      if r.Err? {
        uploads := unclaimed;
      } else {
        SubmissionKeepsStoreExactly(cat, before, eventId, formId, sub, now, id);
      }
    }

    /** The inner call of a submission. */
    method SaveSubmission(eventId: Id, formId: IdText, sub: Submission, full: bool, entries: seq<Entry>, id: Id)
      returns (r: Result<()>)
      requires CatalogOk(cat) && eventId in cat.events && id !in participants
      modifies this
      ensures Answers(old(Snapshot()),
          Store.SaveSubmission(cat, old(Snapshot()), eventId, formId, sub, full, entries, id),
                      Snapshot(), r)
    {
      if !IsRegistration(cat, eventId, formId) && sub.participant.Some? {
        r := Update(eventId, sub.participant.value, sub.email, Some(entries), true);
      } else if IsRegistration(cat, eventId, formId) && sub.email.Some? {
        if full {
          return Err(BadRequest);
        }
        r := Register(eventId, sub.email.value, entries, true, id);
      } else {
        return Err(Internal);
      }
    }
  }
}
