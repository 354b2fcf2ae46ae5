/** Why the capacity bound needs its conditions: a run that breaks each of them, and the bound with it. */
module CapacityExamples {
  import opened Wrappers
  import opened Text
  import opened Values
  import opened Normalizer
  import opened Store
  import opened Capacity

  /** Every text is accepted as an id, an address or a date; "B" is another spelling of the id "b". */
  const LENIENT := Formats(
    _ => true, s => if s == "B" then "b" else s, _ => true, _ => true, _ => true, s => s, _ => NaN, _ => "")

  /** An event with a registration form "r" and a form "u"; both ask for "a", whose block "b" has one place. */
  const ONE_PLACE := Catalog(
    LENIENT, "https://files/",
    map["e" := Event(Some("r"), None)],
    map["r" := Form("e", Manual, true, None, None, [Field("a", false)]),
        "u" := Form("e", Manual, true, None, None, [Field("a", false)])],
    map["a" := Attribute("e", BlockType, Null)],
    map["b" := Block("a", false, Some(1))])

  function Asking(text: IdText): Value {
    Arr([Str(text)])
  }

  const B := Asking("b")

  lemma OneItem(text: IdText)
    requires text == "b" || text == "B"
    ensures ListItems(Asking(text)) == RequestedBlocks(Asking(text)) == [text] && StringArray([text]) == [Str(text)]
  {
    assert Asking(text).items[1..] == [];
    assert StringsOf(Asking(text).items) == [text];
    assert Trim(text) == text;
    assert [text][1..] == [];
    assert TrimAll([text]) == [text];
  }

  lemma AskingForB(text: IdText)
    requires text == "b" || text == "B"
    ensures RequestedBlocks(Asking(text)) == [text]
    ensures NormalizeFor(ONE_PLACE, "a", Asking(text)) == Ok(Asking(text))
    ensures NormalizeFor(ONE_PLACE, "a", Null) == Ok(Null)
  {
    hide ListItems;
    hide RequestedBlocks;
    OneItem(text);
    assert "b" in BlocksOf(ONE_PLACE, "a");
    assert UuidValues(LENIENT, [text]) == ["b"];
    CountMeansAllDistinct(["b"], BlocksOf(ONE_PLACE, "a"));
  }

  /** Participant "q" has the only place. */
  const Q_HOLDS_B := Db(map["q" := Participant("e", "q@e")], map[("q", "a") := B], map[], {})

  lemma HoldersOfB(rows: map<RowKey, Value>, holders: set<RowKey>)
    requires holders == HolderRows(ONE_PLACE, rows, "b")
    ensures WithinCapacity(ONE_PLACE, rows) <==> |holders| <= 1
  {
    assert Limited(ONE_PLACE, "b");
  }

  /** Asking for the block, under either spelling, or for nothing. */
  predicate AsksOrClears(v: Value) {
    v == B || v == Asking("B") || v == Null
  }

  lemma PrepareEntry(rows: map<RowKey, Value>, v: Value, current: Option<Id>)
    requires AsksOrClears(v)
    ensures Prepare(ONE_PLACE, rows, "e", [("a", v)], true, current) == Ok([("a", v)])
    ensures ToMap([("a", v)]) == map["a" := v]
  {
    AskingForB("b");
    AskingForB("B");
    PrepareSingle(ONE_PLACE, rows, "e", ("a", v), true, current);
    assert PrepareOne(ONE_PLACE, rows, true, current, ("a", v)) == Ok(v);
    assert [("a", v)][..0] == [];
  }

  lemma CollectOne(v: Value)
    ensures Collect([("a", v)]) == [("a", v)]
  {
    assert [("a", v)][..0] == [];
  }

  lemma NothingRequired(rows: map<RowKey, Value>, form: Form, participant: Option<Id>, entries: seq<Entry>)
    requires form.fields == [Field("a", false)]
    ensures RequiredOk(ONE_PLACE, rows, form, participant, entries)
  {
  }

  lemma BlockEntry(client: Client, v: Value)
    requires client.form in {"r", "u"}
    ensures HasField(ONE_PLACE.forms[client.form], "a")
    ensures IsBlockEntry(ONE_PLACE, ("a", v)) <==> !IsMissing(v)
    ensures IsMissing(Null) && !IsMissing(B) && !IsMissing(Asking("B"))
  {
    assert ONE_PLACE.forms[client.form].fields[0].attribute == "a";
    assert |B.items| == |Asking("B").items| == 1;
  }

  /** Some run leads from `s` to `s'`. */
  ghost predicate Leads(s: State, s': State) {
    exists actions :: Run(ONE_PLACE, s, actions) == Some(s')
  }

  lemma OneStep(s: State, s': State, action: Action)
    requires Step(ONE_PLACE, s, action) == Some(s')
    ensures Leads(s, s')
  {
    assert Run(ONE_PLACE, s', [action][1..]) == Some(s');
    assert Run(ONE_PLACE, s, [action]) == Some(s');
  }

  lemma {:induction false} RunParts(s: State, x: seq<Action>, y: seq<Action>)
    requires Run(ONE_PLACE, s, x).Some?
    ensures Run(ONE_PLACE, s, x + y) == Run(ONE_PLACE, Run(ONE_PLACE, s, x).value, y)
    decreases x
  {
    if x == [] {
      assert x + y == y;
    } else {
      assert (x + y)[1..] == x[1..] + y;
      RunParts(Step(ONE_PLACE, s, x[0]).value, x[1..], y);
    }
  }

  lemma Then(s: State, s1: State, s2: State)
    requires Leads(s, s1) && Leads(s1, s2)
    ensures Leads(s, s2)
  {
    var x :| Run(ONE_PLACE, s, x) == Some(s1);
    var y :| Run(ONE_PLACE, s1, y) == Some(s2);
    RunParts(s, x, y);
    assert Run(ONE_PLACE, s, x + y) == Some(s2);
  }

  /** `s` with the submission at `c` moved to `client`. */
  lemma Moved(s: State, c: nat, client: Client, client': Client)
    ensures Become(Become(s, c, client), c, client') == Become(s, c, client')
  {
    assert s.clients[c := client][c := client'] == s.clients[c := client'];
  }

  /** A submission of one entry ("a", v) at one of the event's forms. */
  predicate Single(client: Client, v: Value) {
    client.form in {"r", "u"} && client.event == "e" && client.entries == [("a", v)]
  }

  lemma Beginning(s: State, c: nat, form: Id, sub: Submission, v: Value)
    requires c !in s.clients && form in {"r", "u"} && sub.attributes == [("a", v)]
    requires if form == "r" then sub.email.Some? else sub.participant.Some?
    ensures Leads(s, Become(s, c, Client("e", form, sub, false, [("a", v)], AtEntry(0), {}, {})))
  {
    CollectOne(v);
    OneStep(s, Become(s, c, Client("e", form, sub, false, [("a", v)], AtEntry(0), {}, {})),
        Begin(c, "e", form, sub, 0));
  }

  /** After the entry is done the submission is ready to save: nothing is required. */
  lemma LastEntry(s: State, c: nat, client: Client, v: Value)
    requires Single(client, v) && client.pc == AtEntry(1)
    ensures Leads(Become(s, c, client), Become(s, c, client.(pc := Saving)))
  {
    NothingRequired(s.db.rows, ONE_PLACE.forms[client.form], client.sub.participant, client.entries);
    Moved(s, c, client, client.(pc := Saving));
    OneStep(Become(s, c, client), Become(s, c, client.(pc := Saving)), NextEntry(c));
  }

  lemma FirstEntry(s: State, c: nat, client: Client, text: IdText)
    requires (text == "b" || text == "B") && Single(client, Asking(text)) && client.pc == AtEntry(0)
    ensures Leads(Become(s, c, client),
        Become(s, c, client.(pc := AtBlock(0, [text], 0, StoredValue(s.db, client, "a")))))
  {
    hide Leads;
    AskingForB(text);
    BlockEntry(client, Asking(text));
    var client' := client.(pc := AtBlock(0, [text], 0, StoredValue(s.db, client, "a")));
    Moved(s, c, client, client');
    OneStep(Become(s, c, client), Become(s, c, client'), NextEntry(c));
  }

  lemma LastBlock(s: State, c: nat, client: Client, text: IdText, previous: Value)
    requires Single(client, Asking(text)) && client.pc == AtBlock(0, [text], 1, previous)
    ensures Leads(Become(s, c, client), Become(s, c, client.(pc := Saving)))
  {
    var client' := client.(pc := AtEntry(1));
    Moved(s, c, client, client');
    OneStep(Become(s, c, client), Become(s, c, client'), NextBlock(c));
    LastEntry(s, c, client', Asking(text));
    Then(Become(s, c, client), Become(s, c, client'), Become(s, c, client.(pc := Saving)));
  }

  /** Asking for a block the participant holds locks and checks nothing. */
  lemma KeepingB(s: State, c: nat, client: Client)
    requires Single(client, B) && client.pc == AtEntry(0) && StoredValue(s.db, client, "a") == B
    ensures Leads(Become(s, c, client), Become(s, c, client.(pc := Saving)))
  {
    assert B.items[0] == Str("b") && Holds(B, "b");
    FirstEntry(s, c, client, "b");
    var client1, client2 := client.(pc := AtBlock(0, ["b"], 0, B)), client.(pc := AtBlock(0, ["b"], 1, B));
    Moved(s, c, client1, client2);
    OneStep(Become(s, c, client1), Become(s, c, client2), NextBlock(c));
    Then(Become(s, c, client), Become(s, c, client1), Become(s, c, client2));
    LastBlock(s, c, client2, "b", B);
    Then(Become(s, c, client), Become(s, c, client2), Become(s, c, client.(pc := Saving)));
  }

  /** Clearing the attribute. */
  lemma ClearingA(s: State, c: nat, client: Client)
    requires Single(client, Null) && client.pc == AtEntry(0)
    ensures Leads(Become(s, c, client), Become(s, c, client.(pc := Saving)))
  {
    BlockEntry(client, Null);
    var client' := client.(pc := AtEntry(1));
    Moved(s, c, client, client');
    OneStep(Become(s, c, client), Become(s, c, client'), NextEntry(c));
    LastEntry(s, c, client', Null);
    Then(Become(s, c, client), Become(s, c, client'), Become(s, c, client.(pc := Saving)));
  }

  /** The block seems free: nobody holds it under this spelling, and no submission has locked anything. */
  predicate Free(s: State, text: IdText) {
    CountHolders(s.db.rows, text) == 0 && forall d :: d in s.clients ==> s.clients[d].locks == {}
  }

  lemma SignInToFreeB(rows: map<RowKey, Value>, text: IdText)
    requires (text == "b" || text == "B") && CountHolders(rows, text) == 0
    ensures CanSignIn(ONE_PLACE, rows, "e", "a", text)
  {
  }

  lemma LockingB(s: State, c: nat, client: Client, text: IdText)
    requires text == "b" || text == "B"
    requires Single(client, Asking(text)) && client.pc == AtBlock(0, [text], 0, Null)
    requires client.locks == client.granted == {} && Free(s, text)
    ensures Leads(Become(s, c, client),
                  Become(s, c, client.(pc := AtBlock(0, [text], 1, Null), locks := {"b"}, granted := {text})))
  {
    hide Leads;
    var client1 := client.(pc := AtLocked(0, [text], 0, Null), locks := {"b"});
    var client2 := client.(pc := AtBlock(0, [text], 1, Null), locks := {"b"}, granted := {text});
    Moved(s, c, client, client1);
    OneStep(Become(s, c, client), Become(s, c, client1), Lock(c));
    Moved(s, c, client1, client2);
    SignInToFreeB(s.db.rows, text);
    OneStep(Become(s, c, client1), Become(s, c, client2), Check(c));
    Then(Become(s, c, client), Become(s, c, client1), Become(s, c, client2));
  }

  /** Asking for the block when it seems free. */
  lemma TakingB(s: State, c: nat, client: Client, text: IdText)
    requires text == "b" || text == "B"
    requires Single(client, Asking(text)) && client.pc == AtEntry(0)
    requires client.locks == client.granted == {} && Free(s, text) && StoredValue(s.db, client, "a") == Null
    ensures Leads(Become(s, c, client), Become(s, c, client.(pc := Saving, locks := {"b"}, granted := {text})))
  {
    FirstEntry(s, c, client, text);
    var client1 := client.(pc := AtBlock(0, [text], 0, Null));
    var client2 := client.(pc := AtBlock(0, [text], 1, Null), locks := {"b"}, granted := {text});
    LockingB(s, c, client1, text);
    Then(Become(s, c, client), Become(s, c, client1), Become(s, c, client2));
    LastBlock(s, c, client2, text, Null);
    Then(Become(s, c, client), Become(s, c, client2), Become(s, c, client2.(pc := Saving)));
  }

  lemma NoFileKeys(rows: map<RowKey, Value>, p: Id)
    ensures FileKey(ONE_PLACE, rows, (p, "a")).None?
  {
  }

  lemma RowOfA(rows: map<RowKey, Value>, p: Id, v: Value)
    ensures rows + RowsFor(p, map["a" := v]) == rows[(p, "a") := v]
  {
    assert RowsFor(p, map["a" := v]).Keys == {(p, "a")};
  }

  lemma WrittenRows(db: Db, p: Id, v: Value)
    ensures WriteRows(ONE_PLACE, db, RowsFor(p, map["a" := v])) == db.(rows := db.rows[(p, "a") := v])
    ensures db.rows + RowsFor(p, map["a" := v]) == db.rows[(p, "a") := v]
  {
    hide FileKey;
    hide RowsFor;
    var written := RowsFor(p, map["a" := v]);
    NoFileKeys(db.rows, p);
    RowOfA(db.rows, p, v);
    assert ReplacedKeys(ONE_PLACE, db.rows, written) == {};
  }

  function SavedDb(db: Db, p: Id, v: Value, address: string): Db {
    db.(rows := db.rows[(p, "a") := v], participants := db.participants[p := Participant("e", address)])
  }

  /** The inner commit, once the inner call is known to answer with `db`. */
  lemma InnerCommits(cat: Catalog, s: State, c: nat, id: Id, db: Db)
    requires cat.prefix != "" && c in s.clients && s.clients[c].pc.Saving? && s.clients[c].event in cat.events
    requires id !in s.db.participants && forall d :: d in s.clients ==> s.clients[d].sub.participant != Some(id)
    requires var client := s.clients[c];
      SaveSubmission(cat, s.db, client.event, client.form, client.sub, client.full, client.entries, id) == Ok(db)
    ensures Step(cat, s, Save(c, id)) == Some(State(db, s.clients[c := s.clients[c].(pc := Saved, granted := {})]))
  {
    hide SaveSubmission;
  }

  lemma SavingStep(s: State, c: nat, client: Client, id: Id, db: Db)
    requires client.pc.Saving? && client.event in ONE_PLACE.events
    requires id !in s.db.participants && client.sub.participant != Some(id)
    requires forall d :: d in s.clients ==> s.clients[d].sub.participant != Some(id)
    requires SaveSubmission(ONE_PLACE, s.db, client.event, client.form, client.sub, client.full, client.entries, id)
        == Ok(db)
    ensures Leads(Become(s, c, client), Become(s.(db := db), c, client.(pc := Saved, granted := {})))
  {
    var saved := client.(pc := Saved, granted := {});
    Moved(s, c, client, saved);
    InnerCommits(ONE_PLACE, Become(s, c, client), c, id, db);
    OneStep(Become(s, c, client), Become(s.(db := db), c, saved), Save(c, id));
  }

  lemma SavingRegistration(s: State, c: nat, client: Client, id: Id, v: Value)
    requires AsksOrClears(v) && Single(client, v) && client.form == "r" && client.pc.Saving? && client.sub.email.Some?
    requires !client.full
    requires id !in s.db.participants && client.sub.participant != Some(id)
    requires forall d :: d in s.clients ==> s.clients[d].sub.participant != Some(id)
    requires !EmailTaken(s.db.participants, "e", client.sub.email.value, None) && (id, "a") !in s.db.rows
    ensures Leads(Become(s, c, client),
                  Become(s.(db := SavedDb(s.db, id, v, client.sub.email.value)), c,
                      client.(pc := Saved, granted := {})))
  {
    PrepareEntry(s.db.rows, v, None);
    WrittenRows(s.db, id, v);
    SavingStep(s, c, client, id, SavedDb(s.db, id, v, client.sub.email.value));
  }

  /** "q" is a participant whose value of "a" is `B` or null. */
  predicate QIsStored(db: Db) {
    && "q" in db.participants && db.participants["q"] == Participant("e", "q@e")
    && ("q", "a") in db.rows && (db.rows[("q", "a")] == B || db.rows[("q", "a")] == Null)
  }

  lemma UpdatedDb(db: Db, id: Id, v: Value, full: bool)
    requires (v == B || v == Null) && QIsStored(db)
    ensures SaveSubmission(ONE_PLACE, db, "e", "u", Submission(None, Some("q"), [("a", v)]), full, [("a", v)], id)
        == Ok(SavedDb(db, "q", v, "q@e"))
  {
    hide WriteRows;
    hide Prepare;
    PrepareEntry(db.rows, v, Some("q"));
    WrittenRows(db, "q", v);
  }

  lemma SavingUpdate(s: State, c: nat, client: Client, id: Id, v: Value)
    requires Single(client, v) && (v == B || v == Null) && client.form == "u" && client.pc.Saving?
    requires client.sub == Submission(None, Some("q"), [("a", v)])
    requires id !in s.db.participants && id != "q"
    requires forall d :: d in s.clients ==> s.clients[d].sub.participant != Some(id)
    requires QIsStored(s.db)
    ensures Leads(Become(s, c, client),
        Become(s.(db := SavedDb(s.db, "q", v, "q@e")), c, client.(pc := Saved, granted := {})))
  {
    UpdatedDb(s.db, id, v, client.full);
    SavingStep(s, c, client, id, SavedDb(s.db, "q", v, "q@e"));
  }

  lemma HoldersAre(rows: map<RowKey, Value>)
    requires forall k :: k in rows ==> k.1 == "a" && HoldsBlock(LENIENT, rows[k], "b")
    ensures WithinCapacity(ONE_PLACE, rows) <==> |rows.Keys| <= 1
  {
    hide HoldsBlock;
    assert HolderRows(ONE_PLACE, rows, "b") == rows.Keys;
    HoldersOfB(rows, rows.Keys);
  }

  lemma BothSpellingsHold(text: IdText)
    requires text == "b" || text == "B"
    ensures HoldsBlock(LENIENT, Asking(text), "b")
  {
    assert Asking(text).items[0] == Str(text);
  }

  lemma OneHolder(p: Id)
    ensures WithinCapacity(ONE_PLACE, map[(p, "a") := B])
  {
    hide HoldsBlock;
    hide WithinCapacity;
    BothSpellingsHold("b");
    var rows: map<RowKey, Value> := map[(p, "a") := B];
    HoldersAre(rows);
    assert rows.Keys == {(p, "a")};
  }

  lemma TwoHolders(rows: map<RowKey, Value>, p: Id, q: Id, text: IdText)
    requires p != q && (text == "b" || text == "B") && rows.Keys == {(p, "a"), (q, "a")}
    requires rows[(p, "a")] == B && rows[(q, "a")] == Asking(text)
    ensures !WithinCapacity(ONE_PLACE, rows)
  {
    hide HoldsBlock;
    hide WithinCapacity;
    BothSpellingsHold("b");
    BothSpellingsHold(text);
    HoldersAre(rows);
  }

  /** A registration naming "q" passes unchecked, because "q" held the block; the new participant gets a place too. */
  lemma RegistrationNamingAHolderOverbooks() returns (s: State)
    ensures WithinCapacity(ONE_PLACE, Q_HOLDS_B.rows)
    ensures Leads(State(Q_HOLDS_B, map[]), s) && !WithinCapacity(ONE_PLACE, s.db.rows)
  {
    var s0 := State(Q_HOLDS_B, map[]);
    var sub := Submission(Some("n@e"), Some("q"), [("a", B)]);
    var client := Client("e", "r", sub, false, [("a", B)], AtEntry(0), {}, {});
    Beginning(s0, 0, "r", sub, B);
    KeepingB(s0, 0, client);
    Then(s0, Become(s0, 0, client), Become(s0, 0, client.(pc := Saving)));
    SavingRegistration(s0, 0, client.(pc := Saving), "n", B);
    s := Become(s0.(db := SavedDb(Q_HOLDS_B, "n", B, "n@e")), 0, client.(pc := Saved));
    Then(s0, Become(s0, 0, client.(pc := Saving)), s);
    OneHolder("q");
    TwoHolders(s.db.rows, "q", "n", "b");
  }

  const KEEPING := Client("e", "u", Submission(None, Some("q"), [("a", B)]), false, [("a", B)], Saving, {}, {})
  const CLEARING := Client("e", "u", Submission(None, Some("q"), [("a", Null)]), false, [("a", Null)], Saved, {}, {})
  const TAKING := Client("e", "r", Submission(Some("n@e"), None, [("a", B)]), false, [("a", B)], Saved, {"b"}, {})

  lemma FirstKeeps(s: State)
    requires s == State(Q_HOLDS_B, map[])
    ensures Leads(s, Become(s, 0, KEEPING))
  {
    Beginning(s, 0, "u", KEEPING.sub, B);
    KeepingB(s, 0, KEEPING.(pc := AtEntry(0)));
    Then(s, Become(s, 0, KEEPING.(pc := AtEntry(0))), Become(s, 0, KEEPING));
  }

  lemma SecondClears(s: State)
    requires s.db == Q_HOLDS_B && 1 !in s.clients
    requires forall d :: d in s.clients ==> s.clients[d].sub.participant == Some("q")
    ensures Leads(s, Become(s.(db := SavedDb(Q_HOLDS_B, "q", Null, "q@e")), 1, CLEARING))
  {
    var start, ready := CLEARING.(pc := AtEntry(0)), CLEARING.(pc := Saving);
    Beginning(s, 1, "u", CLEARING.sub, Null);
    ClearingA(s, 1, start);
    Then(s, Become(s, 1, start), Become(s, 1, ready));
    SavingUpdate(s, 1, ready, "y", Null);
    Then(s, Become(s, 1, ready), Become(s.(db := SavedDb(Q_HOLDS_B, "q", Null, "q@e")), 1, CLEARING));
  }

  lemma ThirdTakes(s: State)
    requires s.db == SavedDb(Q_HOLDS_B, "q", Null, "q@e") && 2 !in s.clients
    requires forall d :: d in s.clients ==> s.clients[d].sub.participant == Some("q") && s.clients[d].locks == {}
    ensures Leads(s, Become(s.(db := SavedDb(s.db, "n", B, "n@e")), 2, TAKING))
  {
    assert (set k | k in s.db.rows && Holds(s.db.rows[k], "b")) == {};
    var start, ready := TAKING.(pc := AtEntry(0), locks := {}), TAKING.(pc := Saving, granted := {"b"});
    Beginning(s, 2, "r", TAKING.sub, B);
    TakingB(s, 2, start, "b");
    Then(s, Become(s, 2, start), Become(s, 2, ready));
    SavingRegistration(s, 2, ready, "n", B);
    Then(s, Become(s, 2, ready), Become(s.(db := SavedDb(s.db, "n", B, "n@e")), 2, TAKING));
  }

  lemma FirstSaves(s: State)
    requires QIsStored(s.db) && 0 in s.clients && s.clients[0] == KEEPING
    requires "x" !in s.db.participants && forall d :: d in s.clients ==> s.clients[d].sub.participant != Some("x")
    ensures Leads(s, Become(s.(db := SavedDb(s.db, "q", B, "q@e")), 0, KEEPING.(pc := Saved)))
  {
    assert s.clients[0 := KEEPING] == s.clients;
    SavingUpdate(s, 0, KEEPING, "x", B);
  }

  lemma PlaceMovesOn() returns (s: State)
    ensures Leads(State(Q_HOLDS_B, map[]), s)
    ensures s.db == SavedDb(SavedDb(Q_HOLDS_B, "q", Null, "q@e"), "n", B, "n@e")
    ensures s.clients == map[0 := KEEPING, 1 := CLEARING, 2 := TAKING]
  {
    var s0 := State(Q_HOLDS_B, map[]);
    FirstKeeps(s0);
    var s1 := Become(s0, 0, KEEPING);
    SecondClears(s1);
    var s2 := Become(s1.(db := SavedDb(Q_HOLDS_B, "q", Null, "q@e")), 1, CLEARING);
    Then(s0, s1, s2);
    ThirdTakes(s2);
    s := Become(s2.(db := SavedDb(s2.db, "n", B, "n@e")), 2, TAKING);
    Then(s0, s2, s);
  }

  /**
   Two open submissions for "q": the first has seen that "q" holds the block, the second gives it up,
   a registration takes the place, and then the first is saved with the block it never locked.
   */
  lemma OverlappingSubmissionsOverbook() returns (s: State)
    ensures WithinCapacity(ONE_PLACE, Q_HOLDS_B.rows)
    ensures Leads(State(Q_HOLDS_B, map[]), s) && !WithinCapacity(ONE_PLACE, s.db.rows)
  {
    var before := PlaceMovesOn();
    FirstSaves(before);
    s := Become(before.(db := SavedDb(before.db, "q", B, "q@e")), 0, KEEPING.(pc := Saved));
    Then(State(Q_HOLDS_B, map[]), before, s);
    OneHolder("q");
    TwoHolders(s.db.rows, "q", "n", "b");
  }

  lemma NobodyHoldsUpperB()
    ensures CountHolders(Q_HOLDS_B.rows, "B") == 0
  {
    assert B.items == [Str("b")] && Str("B") !in B.items;
    assert (set k | k in Q_HOLDS_B.rows && Holds(Q_HOLDS_B.rows[k], "B")) == {};
  }

  /**
   A registration asking for "B" locks the row of "b" but counts the values that contain "B", of which there are none:
   the new participant gets a second place.
   */
  lemma RespelledBlockOverbooks() returns (s: State)
    ensures WithinCapacity(ONE_PLACE, Q_HOLDS_B.rows)
    ensures Leads(State(Q_HOLDS_B, map[]), s) && !WithinCapacity(ONE_PLACE, s.db.rows)
  {
    var s0 := State(Q_HOLDS_B, map[]);
    var sub := Submission(Some("n@e"), None, [("a", Asking("B"))]);
    var client := Client("e", "r", sub, false, [("a", Asking("B"))], AtEntry(0), {}, {});
    Beginning(s0, 0, "r", sub, Asking("B"));
    NobodyHoldsUpperB();
    TakingB(s0, 0, client, "B");
    var ready := client.(pc := Saving, locks := {"b"}, granted := {"B"});
    Then(s0, Become(s0, 0, client), Become(s0, 0, ready));
    SavingRegistration(s0, 0, ready, "n", Asking("B"));
    s := Become(s0.(db := SavedDb(Q_HOLDS_B, "n", Asking("B"), "n@e")), 0, ready.(pc := Saved, granted := {}));
    Then(s0, Become(s0, 0, ready), s);
    OneHolder("q");
    TwoHolders(s.db.rows, "q", "n", "B");
  }
}
