/**
 Every object in the bucket has exactly one owner: an upload row nobody has claimed yet,
 or a stored value of a file or drawing attribute.
 */
module Ownership {
  import opened Wrappers
  import opened Text
  import opened Values
  import opened Storage
  import opened Store

  datatype Owner = UploadRow(token: Id) | AttributeRow(key: RowKey)

  predicate Owns(cat: Catalog, db: Db, o: Owner, x: string) {
    match o
    case UploadRow(t) => t in db.uploads && !db.uploads[t].claimed && db.uploads[t].key == x
    case AttributeRow(k) => k in db.rows && IsFileAttribute(cat, k.1) && x != "" && db.rows[k] == Str(x)
  }

  ghost predicate LinearOwnership(cat: Catalog, db: Db) {
    && (forall o, x :: Owns(cat, db, o, x) ==> x in db.bucket)
    && (forall x :: x in db.bucket ==> exists o :: Owns(cat, db, o, x))
    && (forall o, o', x :: Owns(cat, db, o, x) && Owns(cat, db, o', x) ==> o == o')
  }

  /** Ids are UUID columns, and the forms of an event ask only for attributes of that event. */
  predicate CatalogOk(cat: Catalog) {
    && cat.prefix != ""
    && (forall a :: a in cat.attributes ==> AsStored(cat.fmt, a))
    && (forall b :: b in cat.blocks ==> AsStored(cat.fmt, b))
    && forall f, i :: f in cat.forms && 0 <= i < |cat.forms[f].fields| ==>
        var a := cat.forms[f].fields[i].attribute;
        a in cat.attributes ==> cat.attributes[a].event == cat.forms[f].event
  }

  /** A name the storage gives an object: not a URL, and not blank. */
  predicate GoodKey(cat: Catalog, key: string) {
    Bare(cat.prefix, key) && Trim(key) != ""
  }

  /** A value that normalisation and the JSON column leave as it is. */
  predicate IsNormal(cat: Catalog, a: Id, v: Value)
    requires a in cat.attributes
  {
    NormalizeFor(cat, a, v) == Ok(v) && InJson(v) == v
  }

  /** Stored values are in normal form, under an attribute of the participant's event. */
  predicate RowsNormal(cat: Catalog, db: Db) {
    forall k :: k in db.rows ==>
      && k.0 in db.participants
      && k.1 in cat.attributes
      && cat.attributes[k.1].event == db.participants[k.0].event
      && IsNormal(cat, k.1, db.rows[k])
  }

  predicate EmailsUnique(db: Db) {
    forall p, q :: p in db.participants && q in db.participants && p != q ==> db.participants[p] != db.participants[q]
  }

  predicate Sound(cat: Catalog, db: Db) {
    && RowsNormal(cat, db)
    && EmailsUnique(db)
    && forall x :: x in db.bucket ==> GoodKey(cat, x)
  }

  // Writing rows and claiming uploads

  /** The uploads after the given tokens have been claimed. */
  function Claimed(uploads: map<Id, Upload>, tokens: set<Id>): map<Id, Upload> {
    map t | t in uploads :: if t in tokens then uploads[t].(claimed := true) else uploads[t]
  }

  /** What a file row may be set to: nothing, what it already holds, or the object of an upload claimed for it. */
  predicate FileValueOk(cat: Catalog, db: Db, claims: map<RowKey, Id>, k: RowKey, v: Value) {
    if k in claims then
      var t := claims[k];
      t in db.uploads && !db.uploads[t].claimed && v == Str(db.uploads[t].key)
    else !v.Str? || v.s == "" || (k in db.rows && db.rows[k] == v)
  }

  predicate ClaimsOk(cat: Catalog, db: Db, written: map<RowKey, Value>, claims: map<RowKey, Id>) {
    && (forall k :: k in written && IsFileAttribute(cat, k.1) ==> FileValueOk(cat, db, claims, k, written[k]))
    && (forall k :: k in claims ==> k in written && IsFileAttribute(cat, k.1))
    && (forall k, k' :: k in claims && k' in claims && claims[k] == claims[k'] ==> k == k')
  }

  lemma RowNamesItself(cat: Catalog, db: Db, k: RowKey)
    requires cat.prefix != "" && LinearOwnership(cat, db) && Sound(cat, db)
    requires FileKey(cat, db.rows, k).Some?
    ensures FileKey(cat, db.rows, k).value == db.rows[k].s
    ensures Owns(cat, db, AttributeRow(k), db.rows[k].s)
  {
    assert Owns(cat, db, AttributeRow(k), db.rows[k].s);
  }

  /** Exactly the objects whose row changed are deleted. */
  lemma ReplacedMeansChanged(cat: Catalog, db: Db, written: map<RowKey, Value>, k: RowKey)
    requires cat.prefix != "" && LinearOwnership(cat, db) && Sound(cat, db)
    requires FileKey(cat, db.rows, k).Some?
    ensures db.rows[k].s in ReplacedKeys(cat, db.rows, written) <==> k in written && written[k] != db.rows[k]
  {
    var x := db.rows[k].s;
    RowNamesItself(cat, db, k);
    if x in ReplacedKeys(cat, db.rows, written) {
      var k' :| k' in written && FileKey(cat, db.rows, k').Some? && db.rows[k'] != written[k'] &&
          FileKey(cat, db.rows, k').value == x;
      RowNamesItself(cat, db, k');
      assert AttributeRow(k) == AttributeRow(k');
    }
  }

  lemma UploadsNotReplaced(cat: Catalog, db: Db, written: map<RowKey, Value>, t: Id)
    requires cat.prefix != "" && LinearOwnership(cat, db) && Sound(cat, db)
    requires t in db.uploads && !db.uploads[t].claimed
    ensures db.uploads[t].key in db.bucket
    ensures db.uploads[t].key !in ReplacedKeys(cat, db.rows, written)
  {
    var x := db.uploads[t].key;
    assert Owns(cat, db, UploadRow(t), x);
    if x in ReplacedKeys(cat, db.rows, written) {
      var k' :| k' in written && FileKey(cat, db.rows, k').Some? && db.rows[k'] != written[k'] &&
          FileKey(cat, db.rows, k').value == x;
      RowNamesItself(cat, db, k');
      assert false;
    }
  }

  /** The rows and uploads of the new store, seen from its owners: who owned the object before. */
  function PreviousOwner(claims: map<RowKey, Id>, o: Owner): Owner {
    if o.AttributeRow? && o.key in claims then UploadRow(claims[o.key]) else o
  }

  lemma OwnersComeFrom(cat: Catalog, db: Db, db': Db, written: map<RowKey, Value>, claims: map<RowKey, Id>, o: Owner,
                       x: string)
    requires cat.prefix != "" && LinearOwnership(cat, db) && Sound(cat, db) && ClaimsOk(cat, db, written, claims)
    requires db' == WriteRows(cat, db, written).(uploads := Claimed(db.uploads, claims.Values),
        participants := db'.participants)
    requires Owns(cat, db', o, x)
    ensures x in db'.bucket
    ensures Owns(cat, db, PreviousOwner(claims, o), x)
  {
    match o
    case UploadRow(t) =>
      UploadsNotReplaced(cat, db, written, t);
    case AttributeRow(k) =>
      if k in claims {
        UploadsNotReplaced(cat, db, written, claims[k]);
      } else {
        assert FileKey(cat, db.rows, k).Some?;
        assert Owns(cat, db, AttributeRow(k), x);
        ReplacedMeansChanged(cat, db, written, k);
      }
  }

  lemma ObjectsKeepAnOwner(cat: Catalog, db: Db, db': Db, written: map<RowKey, Value>, claims: map<RowKey, Id>,
                           x: string)
    requires cat.prefix != "" && LinearOwnership(cat, db) && Sound(cat, db) && ClaimsOk(cat, db, written, claims)
    requires db' == WriteRows(cat, db, written).(uploads := Claimed(db.uploads, claims.Values),
        participants := db'.participants)
    requires x in db'.bucket
    ensures exists o :: Owns(cat, db', o, x)
  {
    var o :| Owns(cat, db, o, x);
    match o
    case UploadRow(t) =>
      if t in claims.Values {
        var k :| k in claims && claims[k] == t;
        assert Owns(cat, db', AttributeRow(k), x);
      } else {
        assert Owns(cat, db', o, x);
      }
    case AttributeRow(k) =>
      ReplacedMeansChanged(cat, db, written, k);
      assert Owns(cat, db', o, x);
  }

  /** Ownership moves from claimed uploads to the rows written, and replaced objects go. */
  lemma WriteKeepsOwnership(cat: Catalog, db: Db, db': Db, written: map<RowKey, Value>, claims: map<RowKey, Id>)
    requires cat.prefix != "" && LinearOwnership(cat, db) && Sound(cat, db) && ClaimsOk(cat, db, written, claims)
    requires db' == WriteRows(cat, db, written).(uploads := Claimed(db.uploads, claims.Values),
        participants := db'.participants)
    ensures LinearOwnership(cat, db')
  {
    forall o, x | Owns(cat, db', o, x) ensures x in db'.bucket {
      OwnersComeFrom(cat, db, db', written, claims, o, x);
    }
    forall x | x in db'.bucket ensures exists o :: Owns(cat, db', o, x) {
      ObjectsKeepAnOwner(cat, db, db', written, claims, x);
    }
    forall o, o', x | Owns(cat, db', o, x) && Owns(cat, db', o', x) ensures o == o' {
      OwnersComeFrom(cat, db, db', written, claims, o, x);
      OwnersComeFrom(cat, db, db', written, claims, o', x);
      assert PreviousOwner(claims, o) == PreviousOwner(claims, o');
    }
  }
}
