/** Accepted submissions at which the expectations of a sound store and a complete participant fail. */
module SubmissionExamples {
  import opened Wrappers
  import opened Text
  import opened Values
  import opened Normalizer
  import opened Store
  import opened Ownership
  import opened StoreRuns
  import opened Submissions

  /** Every text is accepted as an id, an address or a date, and the only numeral is "Infinity". */
  const SIMPLE := Formats(
    _ => true, s => s, _ => true, _ => true, _ => true, s => s, s => if s == "Infinity" then PosInf else NaN, _ => "")

  /** The registration form "r" and the form "u" require the number "n", the form "g" requires the file "f". */
  const REQUIRING := Catalog(
    SIMPLE, "https://files/",
    map["e" := Event(Some("r"), None)],
    map["r" := Form("e", Manual, true, None, None, [Field("n", true)]),
        "u" := Form("e", Manual, true, None, None, [Field("n", true)]),
        "g" := Form("e", Manual, true, None, None, [Field("f", true)])],
    map["n" := Attribute("e", NumberType, Null), "f" := Attribute("e", File, Null)],
    map[])

  const FIVE := Num(Finite(5.0))

  /** Participant "q" has the number. */
  const Q_HAS_FIVE := Db(map["q" := Participant("e", "q@e")], map[("q", "n") := FIVE], map[], {})

  lemma FiveIsNormal()
    ensures IsNormal(REQUIRING, "n", FIVE)
  {
  }

  lemma CatalogIsOk()
    ensures CatalogOk(REQUIRING)
  {
  }

  lemma StoreIsSound()
    ensures CatalogOk(REQUIRING) && StoreOk(REQUIRING, Q_HAS_FIVE)
  {
    hide CatalogOk;
    hide IsNormal;
    CatalogIsOk();
    FiveIsNormal();
    forall o, x ensures !Owns(REQUIRING, Q_HAS_FIVE, o, x) {
      assert !IsFileAttribute(REQUIRING, "n");
    }
  }

  lemma OneEntry(a: Id, v: Value)
    ensures Collect([(a, v)]) == [(a, v)] && ToMap([(a, v)]) == map[a := v]
  {
    assert [(a, v)][..0] == [];
  }

  /** One entry that is no upload token and asks for no block passes the checks as it is. */
  lemma CheckOne(rows: map<RowKey, Value>, formId: IdText, participant: Option<Id>, a: Id, v: Value)
    requires formId in REQUIRING.forms && HasField(REQUIRING.forms[formId], a) && a in REQUIRING.attributes
    requires IsFileAttribute(REQUIRING, a) && v.Str? ==> Trim(v.s) == ""
    ensures CheckEntries(REQUIRING, rows, map[], formId, REQUIRING.forms[formId], participant, [(a, v)])
         == Ok(([(a, v)], map[]))
  {
    hide BlocksAllowed;
    hide Trim;
    var entries := [(a, v)];
    assert entries[1..] == [];
    assert CheckEntry(REQUIRING, rows, map[], formId, REQUIRING.forms[formId], participant, entries[0])
        == Ok((v, map[]));
    assert [(a, v)] + [] == [(a, v)];
  }

  /** The value of the one attribute that the form asks for. */
  predicate Fills(formId: IdText, a: Id, v: Value) {
    && !IsMissing(v)
    && ((formId in {"r", "u"} && a == "n") || (formId == "g" && a == "f"))
    && NormalizeFor(REQUIRING, a, v).Ok?
    && (IsFileAttribute(REQUIRING, a) && v.Str? ==> Trim(v.s) == "")
  }

  lemma PrepareOneEntry(rows: map<RowKey, Value>, formId: IdText, a: Id, v: Value, current: Option<Id>)
    requires Fills(formId, a, v)
    ensures var saved := Prepare(REQUIRING, rows, "e", [(a, v)], true, current);
      saved.Ok? && DistinctKeys(saved.value)
  {
    hide NormalizeFor;
    PrepareSingle(REQUIRING, rows, "e", (a, v), true, current);
  }

  lemma FilledIsChecked(formId: IdText, participant: Option<Id>, a: Id, v: Value)
    requires Fills(formId, a, v)
    ensures var form := FormOf(REQUIRING, formId);
      && CheckEntries(REQUIRING, Q_HAS_FIVE.rows, map[], formId, form, participant, Collect([(a, v)]))
         == Ok(([(a, v)], map[]))
      && RequiredOk(REQUIRING, Q_HAS_FIVE.rows, form, participant, [(a, v)])
  {
    hide NormalizeFor;
    hide Trim;
    OneEntry(a, v);
    assert FormOf(REQUIRING, formId).fields == [Field(a, true)] && FormOf(REQUIRING, formId).fields[0].attribute == a;
    CheckOne(Q_HAS_FIVE.rows, formId, participant, a, v);
  }

  lemma UpdateIsAccepted(formId: IdText, a: Id, v: Value)
    requires Fills(formId, a, v) && formId != "r"
    ensures FormSubmit(REQUIRING, Q_HAS_FIVE, "e", formId, Submission(None, Some("q"), [(a, v)]), 0, "x").Ok?
  {
    hide NormalizeFor;
    hide CheckEntries;
    hide RequiredOk;
    hide Prepare;
    FilledIsChecked(formId, Some("q"), a, v);
    PrepareOneEntry(Q_HAS_FIVE.rows, formId, a, v, Some("q"));
  }

  lemma RegistrationIsAccepted(v: Value)
    requires Fills("r", "n", v)
    ensures FormSubmit(REQUIRING, Q_HAS_FIVE, "e", "r", Submission(Some("x@e"), None, [("n", v)]), 0, "x").Ok?
  {
    hide Fills;
    hide CheckEntries;
    hide RequiredOk;
    hide Prepare;
    FilledIsChecked("r", None, "n", v);
    PrepareOneEntry(Q_HAS_FIVE.rows, "r", "n", v, None);
  }

  const BLANK := Submission(None, Some("q"), [("f", Str(" "))])

  /** The form "g" takes a blank text for its required file, and "q" then has a file that is no object. */
  lemma BlankFileIsAccepted()
    ensures StoreOk(REQUIRING, Q_HAS_FIVE)
    ensures var answer := FormSubmit(REQUIRING, Q_HAS_FIVE, "e", "g", BLANK, 0, "x");
      answer.Ok? && !LinearOwnership(REQUIRING, answer.value)
  {
    hide FormSubmit;
    hide StoreOk;
    hide CatalogOk;
    hide LinearOwnership;
    StoreIsSound();
    assert Fills("g", "f", Str(" "));
    UpdateIsAccepted("g", "f", Str(" "));
    OneEntry("f", Str(" "));
    assert HasBlankFile(REQUIRING, Collect(BLANK.attributes)) by {
      assert Collect(BLANK.attributes)[0] == ("f", Str(" "));
    }
    SubmissionKeepsOwnershipExactly(REQUIRING, Q_HAS_FIVE, "e", "g", BLANK, 0, "x");
  }

  const NAMING := Submission(Some("x@e"), Some("q"), [])

  lemma NamingIsAccepted()
    ensures FormSubmit(REQUIRING, Q_HAS_FIVE, "e", "r", NAMING, 0, "x").Ok?
  {
    var form := FormOf(REQUIRING, "r");
    assert Collect(NAMING.attributes) == [];
    assert CheckEntries(REQUIRING, Q_HAS_FIVE.rows, map[], "r", form, Some("q"), []) == Ok(([], map[]));
    assert RequiredOk(REQUIRING, Q_HAS_FIVE.rows, form, Some("q"), []);
    assert Prepare(REQUIRING, Q_HAS_FIVE.rows, "e", [], true, None) == Ok([]);
    hide CheckEntries;
    hide RequiredOk;
    hide Prepare;
  }

  /** A registration without attributes that names "q" leaves the new participant without the required number. */
  lemma RegistrationNamingAnotherIsIncomplete()
    ensures StoreOk(REQUIRING, Q_HAS_FIVE)
    ensures var answer := FormSubmit(REQUIRING, Q_HAS_FIVE, "e", "r", NAMING, 0, "x");
      answer.Ok? && !Complete(REQUIRING, answer.value.rows, FormOf(REQUIRING, "r"), "x")
  {
    hide FormSubmit;
    hide Complete;
    StoreIsSound();
    NamingIsAccepted();
    assert !FieldSatisfied(REQUIRING, FormOf(REQUIRING, "r").fields[0], Undefined);
    assert !LeavesOutNothingRequired(REQUIRING, FormOf(REQUIRING, "r"), NAMING);
    RegistrationIsCompleteExactly(REQUIRING, Q_HAS_FIVE, "e", "r", NAMING, 0, "x");
  }

  const INFINITE := Str("Infinity")

  lemma InfinityBecomesNull(formId: IdText, sub: Submission)
    requires formId in {"r", "u"} && sub.attributes == [("n", INFINITE)]
    ensures Fills(formId, "n", INFINITE) && !RequiredAreStored(REQUIRING, FormOf(REQUIRING, formId), sub)
  {
    OneEntry("n", INFINITE);
    assert sub.attributes[0].0 in Keys(sub.attributes);
    assert BecomesNull(REQUIRING, FormOf(REQUIRING, formId).fields[0].attribute, SubmittedValue(sub, "n"));
  }

  /** An infinite number is accepted for the required number and stored as null, by a registration ... */
  lemma RegistrationWithInfinityIsIncomplete()
    ensures StoreOk(REQUIRING, Q_HAS_FIVE)
    ensures var sub := Submission(Some("x@e"), None, [("n", INFINITE)]);
      var answer := FormSubmit(REQUIRING, Q_HAS_FIVE, "e", "r", sub, 0, "x");
      answer.Ok? && !Complete(REQUIRING, answer.value.rows, FormOf(REQUIRING, "r"), "x")
  {
    hide FormSubmit;
    hide Complete;
    hide RequiredAreStored;
    hide Fills;
    StoreIsSound();
    var sub := Submission(Some("x@e"), None, [("n", INFINITE)]);
    InfinityBecomesNull("r", sub);
    RegistrationIsAccepted(INFINITE);
    RegistrationIsCompleteExactly(REQUIRING, Q_HAS_FIVE, "e", "r", sub, 0, "x");
  }

  /** ... and by an update, which so removes the number that was stored. */
  lemma UpdateWithInfinityIsIncomplete()
    ensures StoreOk(REQUIRING, Q_HAS_FIVE) && Complete(REQUIRING, Q_HAS_FIVE.rows, FormOf(REQUIRING, "u"), "q")
    ensures var sub := Submission(None, Some("q"), [("n", INFINITE)]);
      var answer := FormSubmit(REQUIRING, Q_HAS_FIVE, "e", "u", sub, 0, "x");
      answer.Ok? && !Complete(REQUIRING, answer.value.rows, FormOf(REQUIRING, "u"), "q")
  {
    assert Complete(REQUIRING, Q_HAS_FIVE.rows, FormOf(REQUIRING, "u"), "q");
    hide FormSubmit;
    hide Complete;
    hide RequiredAreStored;
    hide Fills;
    StoreIsSound();
    var sub := Submission(None, Some("q"), [("n", INFINITE)]);
    InfinityBecomesNull("u", sub);
    UpdateIsAccepted("u", "n", INFINITE);
    UpdateSubmissionIsCompleteExactly(REQUIRING, Q_HAS_FIVE, "e", "u", sub, 0, "x");
  }
}
