/**
 Concurrent form submissions and the capacity of blocks.

 Each submission is an outer transaction that locks and checks one block after the other, then calls
 the participant service, whose own transaction commits while the outer one still holds its locks.
 The steps of any number of submissions and participant deletions interleave; a count sees committed rows.
 Upload tokens are taken as already replaced by file keys, and transactions do not time out.
 */
module Capacity {
  import opened Wrappers
  import opened Values
  import opened Normalizer
  import opened Store
  import opened StoreRuns

  /** Where a submission is: at an entry, at a block of it, holding its lock, before and after the inner commit. */
  datatype Pc =
    | AtEntry(i: nat)
    | AtBlock(i: nat, ids: seq<IdText>, j: nat, previous: Value)
    | AtLocked(i: nat, ids: seq<IdText>, j: nat, previous: Value)
    | Saving
    | Saved
    | Closed

  /**
   `full` is whether the event had reached its limit when the submission began; `locks` are the block rows locked,
   `granted` the texts of blocks checked and not yet written.
   */
  datatype Client = Client(event: Id, form: IdText, sub: Submission, full: bool, entries: seq<Entry>, pc: Pc,
                           locks: set<Id>, granted: set<IdText>)

  datatype State = State(db: Db, clients: map<nat, Client>)

  datatype Action =
    | Begin(c: nat, event: Id, form: IdText, sub: Submission, now: int)
    | NextEntry(c: nat)
    | NextBlock(c: nat)
    | Lock(c: nat)
    | Check(c: nat)
    | Save(c: nat, id: Id)
    | Finish(c: nat)
    | Delete(inEvent: Id, participants: set<Id>)

  function Close(client: Client): Client {
    client.(pc := Closed, locks := {}, granted := {})
  }

  function Become(s: State, c: nat, client: Client): State {
    s.(clients := s.clients[c := client])
  }

  predicate IsBlockEntry(cat: Catalog, entry: Entry) {
    entry.0 in cat.attributes && cat.attributes[entry.0].kind.BlockType? && !IsMissing(entry.1)
  }

  function StoredValue(db: Db, client: Client, a: Id): Value {
    if client.sub.participant.Some? then RowOr(db.rows, (client.sub.participant.value, a), Null) else Null
  }

  function BeginStep(cat: Catalog, s: State, c: nat, event: Id, form: IdText, sub: Submission,
                     now: int): Option<State>
  {
    if c !in s.clients && Admit(cat, event, form, sub, now).Ok?
    then Some(Become(s, c,
        Client(event, form, sub, LimitReached(cat, s.db, event), Collect(sub.attributes), AtEntry(0), {}, {})))
    else None
  }

  /** The loop over the submitted entries, and the check of the required attributes after it. */
  function EntryStep(cat: Catalog, s: State, c: nat): Option<State> {
    if c !in s.clients || !s.clients[c].pc.AtEntry? then None
    else
      var client := s.clients[c];
      var i := client.pc.i;
      if !KnownForm(cat, client.form) || i > |client.entries| then None
      else if i == |client.entries| then
        if RequiredOk(cat, s.db.rows, FormOf(cat, client.form), client.sub.participant, client.entries)
        then Some(Become(s, c, client.(pc := Saving)))
        else Some(Become(s, c, Close(client)))
      else
        var entry := client.entries[i];
        if !HasField(FormOf(cat, client.form), entry.0) || entry.0 !in cat.attributes
          then Some(Become(s, c, Close(client)))
        else if IsBlockEntry(cat, entry)
        then Some(Become(s, c,
            client.(pc := AtBlock(i, RequestedBlocks(entry.1), 0, StoredValue(s.db, client, entry.0)))))
        else Some(Become(s, c, client.(pc := AtEntry(i + 1))))
  }

  /** The loop over the blocks of one entry, as far as it needs no lock. */
  function BlockStep(cat: Catalog, s: State, c: nat): Option<State> {
    if c !in s.clients || !s.clients[c].pc.AtBlock? then None
    else
      var client := s.clients[c];
      var AtBlock(i, ids, j, previous) := client.pc;
      if j >= |ids| then Some(Become(s, c, client.(pc := AtEntry(i + 1))))
      else if Holds(previous, ids[j]) then Some(Become(s, c, client.(pc := AtBlock(i, ids, j + 1, previous))))
      else if !cat.fmt.isUuid(ids[j]) then Some(Become(s, c, Close(client)))
      else None
  }

  /**
   `SELECT … FOR UPDATE`: finds the row by value, waits while another submission holds it, and locks nothing
   if there is no such row.
   */
  function LockStep(cat: Catalog, s: State, c: nat): Option<State> {
    if c !in s.clients || !s.clients[c].pc.AtBlock? then None
    else
      var client := s.clients[c];
      var AtBlock(i, ids, j, previous) := client.pc;
      if j >= |ids| then None
      else
        var b := cat.fmt.uuidValue(ids[j]);
        if Holds(previous, ids[j]) || !cat.fmt.isUuid(ids[j]) then None
        else if exists d :: d in s.clients && d != c && b in s.clients[d].locks then None
        else
          var locked := if b in cat.blocks then {b} else {};
          Some(Become(s, c, client.(pc := AtLocked(i, ids, j, previous), locks := client.locks + locked)))
  }

  /** Reading the locked block and counting its holders. */
  function CheckStep(cat: Catalog, s: State, c: nat): Option<State> {
    if c !in s.clients || !s.clients[c].pc.AtLocked? then None
    else
      var client := s.clients[c];
      var AtLocked(i, ids, j, previous) := client.pc;
      if i >= |client.entries| || j >= |ids| then None
      else
        if CanSignIn(cat, s.db.rows, client.event, client.entries[i].0, ids[j])
        then Some(Become(s, c, client.(pc := AtBlock(i, ids, j + 1, previous), granted := client.granted + {ids[j]})))
        else Some(Become(s, c, Close(client)))
  }

  /** The inner transaction: it commits, or the submission fails. `id` is the id a registration gets. */
  function SaveStep(cat: Catalog, s: State, c: nat, id: Id): Option<State>
    requires cat.prefix != ""
  {
    if c !in s.clients || !s.clients[c].pc.Saving? || s.clients[c].event !in cat.events then None
    else if id in s.db.participants || exists d :: d in s.clients && s.clients[d].sub.participant == Some(id) then None
    else
      var client := s.clients[c];
      match SaveSubmission(cat, s.db, client.event, client.form, client.sub, client.full, client.entries, id)
      case Ok(db) => Some(State(db, s.clients[c := client.(pc := Saved, granted := {})]))
      case Err(_) => Some(Become(s, c, Close(client)))
  }

  function Step(cat: Catalog, s: State, action: Action): Option<State>
    requires cat.prefix != ""
  {
    match action
    case Begin(c, event, form, sub, now) => BeginStep(cat, s, c, event, form, sub, now)
    case NextEntry(c) => EntryStep(cat, s, c)
    case NextBlock(c) => BlockStep(cat, s, c)
    case Lock(c) => LockStep(cat, s, c)
    case Check(c) => CheckStep(cat, s, c)
    case Save(c, id) => SaveStep(cat, s, c, id)
    case Finish(c) => if c in s.clients then Some(Become(s, c, Close(s.clients[c]))) else None
    case Delete(event, participants) => Some(s.(db := RemoveMany(cat, s.db, event, participants)))
  }

  function Run(cat: Catalog, s: State, actions: seq<Action>): Option<State>
    requires cat.prefix != ""
    decreases actions
  {
    if actions == [] then Some(s)
    else
      var next := Step(cat, s, actions[0]);
      if next.Some? then Run(cat, next.value, actions[1..]) else None
  }

  // The bound

  /** A block of a block attribute, with a capacity. */
  predicate Limited(cat: Catalog, b: Id) {
    && b in cat.blocks
    && cat.blocks[b].capacity.Some?
    && cat.blocks[b].attribute in cat.attributes
    && cat.attributes[cat.blocks[b].attribute].kind.BlockType?
  }

  /** A negative capacity admits nobody, like 0. */
  function Bound(cat: Catalog, b: Id): nat
    requires Limited(cat, b)
  {
    var capacity := cat.blocks[b].capacity.value;
    if capacity < 0 then 0 else capacity
  }

  /** The array contains the block's id, however it is spelled. */
  predicate HoldsBlock(fmt: Formats, v: Value, b: Id) {
    v.Arr? && exists i :: 0 <= i < |v.items| && v.items[i].Str? && fmt.uuidValue(v.items[i].s) == b
  }

  /** The participants whose value of the block's own attribute holds it. */
  function HolderRows(cat: Catalog, rows: map<RowKey, Value>, b: Id): set<RowKey>
    requires b in cat.blocks
  {
    set k | k in rows && k.1 == cat.blocks[b].attribute && HoldsBlock(cat.fmt, rows[k], b)
  }

  predicate WithinCapacity(cat: Catalog, rows: map<RowKey, Value>) {
    forall b :: b in cat.blocks && Limited(cat, b) ==> |HolderRows(cat, rows, b)| <= Bound(cat, b)
  }

  // One spelling of a block's id

  predicate LimitedText(cat: Catalog, text: IdText) {
    Limited(cat, cat.fmt.uuidValue(text))
  }

  /** The participants whose value of the block's own attribute contains the text. */
  function SpelledRows(cat: Catalog, rows: map<RowKey, Value>, text: IdText): set<RowKey>
    requires LimitedText(cat, text)
  {
    set k | k in rows && k.1 == cat.blocks[cat.fmt.uuidValue(text)].attribute && Holds(rows[k], text)
  }

  ghost predicate SpellingsWithinCapacity(cat: Catalog, rows: map<RowKey, Value>) {
    forall text :: LimitedText(cat, text) ==> |SpelledRows(cat, rows, text)| <= Bound(cat, cat.fmt.uuidValue(text))
  }

  /**
   What keeps the bound: a registration names no stored participant,
   and no two submissions for one participant are open together.
   */
  predicate Disciplined(cat: Catalog, s: State, action: Action) {
    action.Begin? && action.sub.participant.Some? ==>
      && !(action.event in cat.events && IsRegistration(cat, action.event, action.form))
      && forall d :: d in s.clients && !s.clients[d].pc.Closed? ==>
          s.clients[d].sub.participant != action.sub.participant
  }

  predicate DisciplinedRun(cat: Catalog, s: State, actions: seq<Action>)
    requires cat.prefix != ""
    decreases actions
  {
    actions != [] ==>
      && Disciplined(cat, s, actions[0])
      && (Step(cat, s, actions[0]).Some? ==> DisciplinedRun(cat, Step(cat, s, actions[0]).value, actions[1..]))
  }

  // The invariant

  ghost predicate Reserved(s: State, text: IdText) {
    exists c :: c in s.clients && text in s.clients[c].granted
  }

  /** Holders plus the place reserved by a submission that passed the check never exceed the capacity. */
  ghost predicate Booked(cat: Catalog, s: State, text: IdText)
    requires LimitedText(cat, text)
  {
    |SpelledRows(cat, s.db.rows, text)| + (if Reserved(s, text) then 1 else 0) <= Bound(cat, cat.fmt.uuidValue(text))
  }

  /** The participant the submission updates still holds the block, unless it has been deleted. */
  ghost predicate StillHeld(db: Db, client: Client, a: Id, text: IdText) {
    client.sub.participant.Some? &&
    (client.sub.participant.value in db.participants ==> HeldBefore(db.rows, client.sub.participant, a, text))
  }

  /** The first `n` blocks asked for have been checked, or were and are held. */
  ghost predicate Covered(db: Db, client: Client, a: Id, ids: seq<IdText>, n: nat)
    requires n <= |ids|
  {
    forall m :: 0 <= m < n ==> ids[m] in client.granted || StillHeld(db, client, a, ids[m])
  }

  ghost predicate EntryDone(cat: Catalog, db: Db, client: Client, k: nat)
    requires k < |client.entries|
  {
    var (a, v) := client.entries[k];
    IsBlockEntry(cat, client.entries[k]) ==> Covered(db, client, a, RequestedBlocks(v), |RequestedBlocks(v)|)
  }

  ghost predicate EntriesDone(cat: Catalog, db: Db, client: Client, n: nat) {
    n <= |client.entries| && forall k :: 0 <= k < n ==> EntryDone(cat, db, client, k)
  }

  /** What was read of the stored value is still there. */
  ghost predicate PreviousHeld(db: Db, client: Client, a: Id, previous: Value) {
    forall text :: Holds(previous, text) ==> StillHeld(db, client, a, text)
  }

  ghost predicate BlockPcOk(cat: Catalog, db: Db, client: Client, i: nat, ids: seq<IdText>, j: nat, previous: Value) {
    && EntriesDone(cat, db, client, i)
    && i < |client.entries|
    && ids == RequestedBlocks(client.entries[i].1)
    && j <= |ids|
    && Covered(db, client, client.entries[i].0, ids, j)
    && PreviousHeld(db, client, client.entries[i].0, previous)
  }

  ghost predicate PcOk(cat: Catalog, db: Db, client: Client) {
    match client.pc
    case AtEntry(i) => EntriesDone(cat, db, client, i)
    case AtBlock(i, ids, j, previous) => BlockPcOk(cat, db, client, i, ids, j, previous)
    case AtLocked(i, ids, j, previous) =>
      && BlockPcOk(cat, db, client, i, ids, j, previous)
      && j < |ids|
      && (cat.fmt.uuidValue(ids[j]) in cat.blocks ==> cat.fmt.uuidValue(ids[j]) in client.locks)
    case Saving => EntriesDone(cat, db, client, |client.entries|)
    case Saved => client.granted == {}
    case Closed => client.granted == {} && client.locks == {}
  }

  ghost predicate ClientOk(cat: Catalog, db: Db, client: Client) {
    && (forall text :: text in client.granted ==> cat.fmt.uuidValue(text) in client.locks)
    && PcOk(cat, db, client)
    && (client.sub.participant.Some? && !client.pc.Closed? ==>
          client.event in cat.events && !IsRegistration(cat, client.event, client.form))
  }

  ghost predicate Exclusive(s: State) {
    forall c, d, b :: c in s.clients && d in s.clients && b in s.clients[c].locks && b in s.clients[d].locks ==> c == d
  }

  ghost predicate BothOpen(client: Client, other: Client) {
    !client.pc.Closed? && !other.pc.Closed?
  }

  ghost predicate OneEach(s: State) {
    forall c, d :: c in s.clients && d in s.clients && c != d && BothOpen(s.clients[c], s.clients[d]) ==>
      s.clients[c].sub.participant.None? || s.clients[c].sub.participant != s.clients[d].sub.participant
  }

  ghost predicate Inv(cat: Catalog, s: State) {
    && (forall c :: c in s.clients ==> ClientOk(cat, s.db, s.clients[c]))
    && Exclusive(s)
    && OneEach(s)
    && forall text :: LimitedText(cat, text) ==> Booked(cat, s, text)
  }

  // One step

  lemma CountIncludesHolders(cat: Catalog, rows: map<RowKey, Value>, text: IdText)
    requires LimitedText(cat, text)
    ensures |SpelledRows(cat, rows, text)| <= CountHolders(rows, text)
  {
    SubsetSize(SpelledRows(cat, rows, text), set k | k in rows && Holds(rows[k], text));
  }

  /** A client that gives up locks or grants, or moves on without taking any, keeps the invariant. */
  lemma MoveKeepsInv(cat: Catalog, s: State, c: nat, client: Client)
    requires Inv(cat, s) && c in s.clients && ClientOk(cat, s.db, client)
    requires client.sub == s.clients[c].sub && client.granted <= s.clients[c].granted
    requires client.locks <= s.clients[c].locks
    requires !client.pc.Closed? ==> !s.clients[c].pc.Closed?
    ensures Inv(cat, Become(s, c, client))
  {
    var s' := Become(s, c, client);
    forall text | LimitedText(cat, text) ensures Booked(cat, s', text) {
      assert Booked(cat, s, text);
      if Reserved(s', text) {
        var d :| d in s'.clients && text in s'.clients[d].granted;
        assert text in s.clients[d].granted;
      }
    }
  }

  /** The entries done stay done when the client only gets more blocks granted. */
  lemma DoneWithMore(cat: Catalog, db: Db, client: Client, client': Client, n: nat)
    requires client'.entries == client.entries && client'.sub == client.sub && client.granted <= client'.granted
    requires EntriesDone(cat, db, client, n)
    ensures EntriesDone(cat, db, client', n)
  {
    forall k | 0 <= k < n ensures EntryDone(cat, db, client', k) {
      assert EntryDone(cat, db, client, k);
    }
  }

  lemma EntryAdvances(cat: Catalog, db: Db, client: Client, i: nat)
    requires EntriesDone(cat, db, client, i) && i < |client.entries|
    requires EntryDone(cat, db, client, i)
    ensures EntriesDone(cat, db, client, i + 1)
  {
  }

  lemma PreviousIsRead(db: Db, client: Client, a: Id)
    ensures PreviousHeld(db, client, a, StoredValue(db, client, a))
  {
  }

  lemma EntryStepKeepsInv(cat: Catalog, s: State, c: nat)
    requires Inv(cat, s) && EntryStep(cat, s, c).Some?
    ensures Inv(cat, EntryStep(cat, s, c).value)
  {
    var client := s.clients[c];
    var client' := EntryStep(cat, s, c).value.clients[c];
    assert ClientOk(cat, s.db, client);
    if !client'.pc.Closed? {
      var i := client.pc.i;
      DoneWithMore(cat, s.db, client, client', i);
      if client'.pc.AtEntry? {
        EntryAdvances(cat, s.db, client', i);
      } else if client'.pc.AtBlock? {
        PreviousIsRead(s.db, client', client.entries[i].0);
      }
    }
    MoveKeepsInv(cat, s, c, client');
  }

  lemma NextBlockOk(cat: Catalog, db: Db, client: Client, i: nat, ids: seq<IdText>, j: nat, previous: Value)
    requires ClientOk(cat, db, client) && client.pc == AtBlock(i, ids, j, previous)
    ensures j >= |ids| ==> ClientOk(cat, db, client.(pc := AtEntry(i + 1)))
    ensures j < |ids| && Holds(previous, ids[j]) ==> ClientOk(cat, db, client.(pc := AtBlock(i, ids, j + 1, previous)))
  {
    if j >= |ids| {
      var client' := client.(pc := AtEntry(i + 1));
      DoneWithMore(cat, db, client, client', i);
      EntryAdvances(cat, db, client', i);
    } else if Holds(previous, ids[j]) {
      var client' := client.(pc := AtBlock(i, ids, j + 1, previous));
      DoneWithMore(cat, db, client, client', i);
      assert StillHeld(db, client, client.entries[i].0, ids[j]);
    }
  }

  lemma BlockStepKeepsInv(cat: Catalog, s: State, c: nat)
    requires Inv(cat, s) && BlockStep(cat, s, c).Some?
    ensures Inv(cat, BlockStep(cat, s, c).value)
  {
    var client := s.clients[c];
    var AtBlock(i, ids, j, previous) := client.pc;
    assert ClientOk(cat, s.db, client);
    NextBlockOk(cat, s.db, client, i, ids, j, previous);
    if j >= |ids| {
      MoveKeepsInv(cat, s, c, client.(pc := AtEntry(i + 1)));
    } else if Holds(previous, ids[j]) {
      MoveKeepsInv(cat, s, c, client.(pc := AtBlock(i, ids, j + 1, previous)));
    } else {
      MoveKeepsInv(cat, s, c, Close(client));
    }
  }

  lemma LockedClientOk(cat: Catalog, s: State, c: nat)
    requires LockStep(cat, s, c).Some? && ClientOk(cat, s.db, s.clients[c])
    ensures ClientOk(cat, s.db, LockStep(cat, s, c).value.clients[c])
  {
    var client := s.clients[c];
    var client' := LockStep(cat, s, c).value.clients[c];
    DoneWithMore(cat, s.db, client, client', client.pc.i);
  }

  lemma LockKeepsInv(cat: Catalog, s: State, c: nat)
    requires Inv(cat, s) && LockStep(cat, s, c).Some?
    ensures Inv(cat, LockStep(cat, s, c).value)
  {
    var s' := LockStep(cat, s, c).value;
    LockedClientOk(cat, s, c);
    assert s'.clients[c].granted == s.clients[c].granted;
    forall text | LimitedText(cat, text) ensures Booked(cat, s', text) {
      assert Booked(cat, s, text);
      if Reserved(s', text) {
        var d :| d in s'.clients && text in s'.clients[d].granted;
        assert text in s.clients[d].granted;
      }
    }
  }

  /** Only the holder of the lock can have a spelling of the block granted. */
  lemma GrantNeedsLock(cat: Catalog, s: State, c: nat, text: IdText)
    requires Inv(cat, s) && c in s.clients && cat.fmt.uuidValue(text) in s.clients[c].locks
    ensures forall d :: d in s.clients && text in s.clients[d].granted ==> d == c
  {
    forall d | d in s.clients && text in s.clients[d].granted ensures d == c {
      assert ClientOk(cat, s.db, s.clients[d]);
    }
  }

  lemma GrantedClientOk(cat: Catalog, db: Db, client: Client, client': Client, i: nat, ids: seq<IdText>, j: nat,
                        previous: Value)
    requires ClientOk(cat, db, client) && client.pc == AtLocked(i, ids, j, previous)
    requires cat.fmt.uuidValue(ids[j]) in cat.blocks
    requires client' == client.(pc := AtBlock(i, ids, j + 1, previous), granted := client.granted + {ids[j]})
    ensures cat.fmt.uuidValue(ids[j]) in client.locks
    ensures ClientOk(cat, db, client')
  {
    hide CanSignIn;
    hide ListItems;
    DoneWithMore(cat, db, client, client', i);
  }

  lemma CheckKeepsInv(cat: Catalog, s: State, c: nat)
    requires Inv(cat, s) && CheckStep(cat, s, c).Some?
    ensures Inv(cat, CheckStep(cat, s, c).value)
  {
    hide ClientOk;
    hide Booked;
    hide ListItems;
    var client := s.clients[c];
    assert ClientOk(cat, s.db, client);
    var AtLocked(i, ids, j, previous) := client.pc;
    if CanSignIn(cat, s.db.rows, client.event, client.entries[i].0, ids[j]) {
      var client' := client.(pc := AtBlock(i, ids, j + 1, previous), granted := client.granted + {ids[j]});
      GrantedClientOk(cat, s.db, client, client', i, ids, j, previous);
      GrantKeepsBooked(cat, s, c, ids[j], client');
      assert CheckStep(cat, s, c).value == Become(s, c, client');
    } else {
      MoveKeepsInv(cat, s, c, Close(client));
    }
  }

  lemma GrantKeepsBooked(cat: Catalog, s: State, c: nat, granted: IdText, client: Client)
    requires Inv(cat, s) && c in s.clients
    requires var b := cat.fmt.uuidValue(granted);
      && b in cat.blocks && b in s.clients[c].locks
      && (cat.blocks[b].capacity.Some? ==> CountHolders(s.db.rows, granted) < cat.blocks[b].capacity.value)
    requires client.granted == s.clients[c].granted + {granted} && client.locks == s.clients[c].locks
    requires client.sub == s.clients[c].sub
    requires !client.pc.Closed? && !s.clients[c].pc.Closed? && ClientOk(cat, s.db, client)
    ensures Inv(cat, Become(s, c, client))
  {
    var s' := Become(s, c, client);
    forall text | LimitedText(cat, text) ensures Booked(cat, s', text) {
      assert Booked(cat, s, text);
      if text == granted {
        CountIncludesHolders(cat, s.db.rows, text);
      } else if Reserved(s', text) {
        var d :| d in s'.clients && text in s'.clients[d].granted;
        assert text in s.clients[d].granted;
      }
    }
  }

  lemma BeginKeepsInv(cat: Catalog, s: State, c: nat, event: Id, form: IdText, sub: Submission, now: int)
    requires Inv(cat, s) && Disciplined(cat, s, Begin(c, event, form, sub, now))
    requires BeginStep(cat, s, c, event, form, sub, now).Some?
    ensures Inv(cat, BeginStep(cat, s, c, event, form, sub, now).value)
  {
    var s' := BeginStep(cat, s, c, event, form, sub, now).value;
    assert ClientOk(cat, s.db, s'.clients[c]);
    forall text | LimitedText(cat, text) ensures Booked(cat, s', text) {
      assert Booked(cat, s, text);
      if Reserved(s', text) {
        var d :| d in s'.clients && text in s'.clients[d].granted;
        assert text in s.clients[d].granted;
      }
    }
  }

  // Changing rows under open submissions

  /** What the client relies on is still stored. */
  ghost predicate Kept(db: Db, db': Db, client: Client) {
    forall a, text :: StillHeld(db, client, a, text) ==> StillHeld(db', client, a, text)
  }

  lemma KeptClientOk(cat: Catalog, db: Db, db': Db, client: Client)
    requires ClientOk(cat, db, client) && Kept(db, db', client)
    ensures ClientOk(cat, db', client)
  {
    forall k | 0 <= k < |client.entries| && EntryDone(cat, db, client, k) ensures EntryDone(cat, db', client, k) {
    }
  }

  lemma DeleteKeepsInv(cat: Catalog, s: State, event: Id, participants: set<Id>)
    requires cat.prefix != "" && Inv(cat, s)
    ensures Inv(cat, s.(db := RemoveMany(cat, s.db, event, participants)))
  {
    var db' := RemoveMany(cat, s.db, event, participants);
    var s' := s.(db := db');
    forall c | c in s.clients ensures ClientOk(cat, db', s.clients[c]) {
      KeptClientOk(cat, s.db, db', s.clients[c]);
    }
    forall text | LimitedText(cat, text) ensures Booked(cat, s', text) {
      assert Booked(cat, s, text);
      SubsetSize(SpelledRows(cat, db'.rows, text), SpelledRows(cat, s.db.rows, text));
      assert Reserved(s', text) == Reserved(s, text);
    }
  }

  // The inner commit

  /** A stored block value holds only blocks that were asked for. */
  lemma SavedBlocksWereRequested(cat: Catalog, entry: Entry, w: Value, text: IdText)
    requires entry.0 in cat.attributes && cat.attributes[entry.0].kind.BlockType?
    requires NormalizeFor(cat, entry.0, entry.1).Ok? && w == InJson(NormalizeFor(cat, entry.0, entry.1).value)
    requires Holds(w, text)
    ensures IsBlockEntry(cat, entry) && text in RequestedBlocks(entry.1) && cat.fmt.isUuid(text)
  {
    var ids := RequestedBlocks(entry.1);
    var k :| 0 <= k < |w.items| && w.items[k] == Str(text);
    assert StringArray(ids)[k] == Str(ids[k]);
  }

  /** The rows an accepted inner call writes. */
  lemma InnerCommit(cat: Catalog, db: Db, client: Client, id: Id)
    returns (p: Id, values: map<Id, Value>, address: string)
    requires cat.prefix != "" && client.event in cat.events
    requires SaveSubmission(cat, db, client.event, client.form, client.sub, client.full, client.entries, id).Ok?
    ensures var db' := SaveSubmission(cat, db, client.event, client.form, client.sub, client.full, client.entries,
        id).value;
      && db'.rows == db.rows + RowsFor(p, values)
      && db'.participants == db.participants[p := Participant(client.event, address)]
    ensures if IsRegistration(cat, client.event, client.form) then p == id
      else client.sub.participant == Some(p) && p in db.participants
    ensures var current := Current(cat, client.event, client.form, p);
      && Prepare(cat, db.rows, client.event, client.entries, true, current).Ok?
      && values == ToMap(Prepare(cat, db.rows, client.event, client.entries, true, current).value)
  {
    hide Prepare;
    if IsRegistration(cat, client.event, client.form) {
      p, address := id, client.sub.email.value;
      values := ToMap(Prepare(cat, db.rows, client.event, client.entries, true, None).value);
    } else {
      p := client.sub.participant.value;
      address := client.sub.email.GetOr(db.participants[p].email);
      values := ToMap(Prepare(cat, db.rows, client.event, client.entries, true, Some(p)).value);
    }
  }

  /** A block the saved value newly holds has been granted to the submission. */
  lemma NewlyHeldIsGranted(cat: Catalog, db: Db, client: Client, p: Id, a: Id, text: IdText)
    requires cat.prefix != "" && client.event in cat.events
    requires a in cat.attributes && cat.attributes[a].kind.BlockType?
    requires EntriesDone(cat, db, client, |client.entries|)
    requires IsRegistration(cat, client.event, client.form) ==> client.sub.participant.None?
    requires !IsRegistration(cat, client.event, client.form) ==>
        client.sub.participant == Some(p) && p in db.participants
    requires Prepare(cat, db.rows, client.event, client.entries, true, Current(cat, client.event, client.form, p)).Ok?
    requires var values := ToMap(Prepare(cat, db.rows, client.event, client.entries, true,
        Current(cat, client.event, client.form, p)).value);
      a in values && Holds(values[a], text)
    ensures text in client.granted || ((p, a) in db.rows && Holds(db.rows[(p, a)], text))
  {
    var current := Current(cat, client.event, client.form, p);
    var w := ToMap(Prepare(cat, db.rows, client.event, client.entries, true, current).value)[a];
    var j := PreparedMap(cat, db.rows, client.event, client.entries, true, current, a);
    var entry := client.entries[j];
    SavedBlocksWereRequested(cat, entry, w, text);
    assert EntryDone(cat, db, client, j);
    var m :| 0 <= m < |RequestedBlocks(entry.1)| && RequestedBlocks(entry.1)[m] == text;
    assert text in client.granted || StillHeld(db, client, entry.0, text);
  }

  lemma OthersKept(db: Db, db': Db, client: Client, p: Id, values: map<Id, Value>, participant: Participant)
    requires db'.rows == db.rows + RowsFor(p, values) && db'.participants == db.participants[p := participant]
    requires client.sub.participant != Some(p)
    ensures Kept(db, db', client)
  {
  }

  /** Writing one participant's rows adds at most that participant to the holders of a block. */
  lemma HoldersAfterWrite(cat: Catalog, rows: map<RowKey, Value>, text: IdText, p: Id, values: map<Id, Value>)
    requires LimitedText(cat, text)
    ensures var a := cat.blocks[cat.fmt.uuidValue(text)].attribute; var rows' := rows + RowsFor(p, values);
      |SpelledRows(cat, rows', text)| <= |SpelledRows(cat, rows, text)| +
        if a in values && Holds(values[a], text) && !((p, a) in rows && Holds(rows[(p, a)], text)) then 1 else 0
  {
    var a := cat.blocks[cat.fmt.uuidValue(text)].attribute;
    var before, after := SpelledRows(cat, rows, text), SpelledRows(cat, rows + RowsFor(p, values), text);
    if (p, a) in after && (p, a) !in before {
      SubsetSize(after, before + {(p, a)});
    } else {
      SubsetSize(after, before);
    }
  }

  lemma ReservedAfterSave(cat: Catalog, s: State, s': State, c: nat, text: IdText)
    requires Inv(cat, s) && c in s.clients
    requires s'.clients == s.clients[c := s.clients[c].(pc := Saved, granted := {})]
    ensures Reserved(s', text) ==> Reserved(s, text) && text !in s.clients[c].granted
  {
    assert ClientOk(cat, s.db, s.clients[c]);
    if text in s.clients[c].granted {
      GrantNeedsLock(cat, s, c, text);
    } else if Reserved(s', text) {
      var d :| d in s'.clients && text in s'.clients[d].granted;
      assert text in s.clients[d].granted;
    }
  }

  lemma SaveKeepsBooked(cat: Catalog, s: State, s': State, c: nat, text: IdText, p: Id, values: map<Id, Value>)
    requires Inv(cat, s) && c in s.clients && LimitedText(cat, text)
    requires s'.db.rows == s.db.rows + RowsFor(p, values)
    requires s'.clients == s.clients[c := s.clients[c].(pc := Saved, granted := {})]
    requires var a := cat.blocks[cat.fmt.uuidValue(text)].attribute;
      a in values && Holds(values[a], text) ==>
        text in s.clients[c].granted || ((p, a) in s.db.rows && Holds(s.db.rows[(p, a)], text))
    ensures Booked(cat, s', text)
  {
    assert Booked(cat, s, text);
    HoldersAfterWrite(cat, s.db.rows, text, p, values);
    ReservedAfterSave(cat, s, s', c, text);
    assert text in s.clients[c].granted ==> Reserved(s, text);
  }

  lemma SaveKeepsInv(cat: Catalog, s: State, c: nat, id: Id)
    requires cat.prefix != "" && Inv(cat, s) && SaveStep(cat, s, c, id).Some?
    ensures Inv(cat, SaveStep(cat, s, c, id).value)
  {
    var s' := SaveStep(cat, s, c, id).value;
    var client := s.clients[c];
    assert ClientOk(cat, s.db, client);
    if SaveSubmission(cat, s.db, client.event, client.form, client.sub, client.full, client.entries, id).Err? {
      MoveKeepsInv(cat, s, c, Close(client));
    } else {
      var p, values, address := InnerCommit(cat, s.db, client, id);
      SavedInv(cat, s, s', c, id, p, values, Participant(client.event, address));
    }
  }

  /** What a submission saves: for a registration under the new id, otherwise for the participant named. */
  ghost predicate SavesFor(cat: Catalog, db: Db, client: Client, id: Id, p: Id, values: map<Id, Value>)
    requires cat.prefix != "" && client.event in cat.events
  {
    var current := Current(cat, client.event, client.form, p);
    && (if IsRegistration(cat, client.event, client.form) then p == id
        else client.sub.participant == Some(p) && p in db.participants)
    && Prepare(cat, db.rows, client.event, client.entries, true, current).Ok?
    && values == ToMap(Prepare(cat, db.rows, client.event, client.entries, true, current).value)
  }

  /** The state after the inner commit. */
  ghost predicate CommittedBy(s: State, s': State, c: nat, p: Id, values: map<Id, Value>, participant: Participant)
    requires c in s.clients
  {
    && s'.db.rows == s.db.rows + RowsFor(p, values) && s'.db.participants == s.db.participants[p := participant]
    && s'.clients == s.clients[c := s.clients[c].(pc := Saved, granted := {})]
  }

  lemma SavedBooked(cat: Catalog, s: State, s': State, c: nat, id: Id, p: Id, values: map<Id, Value>,
                    participant: Participant, text: IdText)
    requires cat.prefix != "" && Inv(cat, s) && c in s.clients && s.clients[c].pc.Saving?
    requires s.clients[c].event in cat.events
    requires CommittedBy(s, s', c, p, values, participant) && SavesFor(cat, s.db, s.clients[c], id, p, values)
    requires LimitedText(cat, text)
    ensures Booked(cat, s', text)
  {
    hide Prepare;
    var client := s.clients[c];
    assert ClientOk(cat, s.db, client);
    var a := cat.blocks[cat.fmt.uuidValue(text)].attribute;
    if a in values && Holds(values[a], text) {
      NewlyHeldIsGranted(cat, s.db, client, p, a, text);
    }
    SaveKeepsBooked(cat, s, s', c, text, p, values);
  }

  lemma SavedApart(cat: Catalog, s: State, s': State, c: nat)
    requires Inv(cat, s) && c in s.clients && !s.clients[c].pc.Closed?
    requires s'.clients == s.clients[c := s.clients[c].(pc := Saved, granted := {})]
    ensures Exclusive(s') && OneEach(s')
  {
    forall d, e | d in s'.clients && e in s'.clients && d != e && BothOpen(s'.clients[d], s'.clients[e])
      ensures s'.clients[d].sub.participant.None? || s'.clients[d].sub.participant != s'.clients[e].sub.participant
    {
      assert BothOpen(s.clients[d], s.clients[e]);
    }
  }

  lemma SavedInv(cat: Catalog, s: State, s': State, c: nat, id: Id, p: Id, values: map<Id, Value>,
                 participant: Participant)
    requires cat.prefix != "" && Inv(cat, s) && c in s.clients && s.clients[c].pc.Saving?
    requires s.clients[c].event in cat.events
    requires forall d :: d in s.clients ==> s.clients[d].sub.participant != Some(id)
    requires CommittedBy(s, s', c, p, values, participant) && SavesFor(cat, s.db, s.clients[c], id, p, values)
    ensures Inv(cat, s')
  {
    hide Prepare;
    hide Booked;
    hide ClientOk;
    SavedApart(cat, s, s', c);
    forall d | d in s'.clients ensures ClientOk(cat, s'.db, s'.clients[d]) {
      OtherClientOk(cat, s, s', c, d, p, values, participant);
    }
    forall text | LimitedText(cat, text) ensures Booked(cat, s', text) {
      SavedBooked(cat, s, s', c, id, p, values, participant, text);
    }
  }

  lemma OtherClientOk(cat: Catalog, s: State, s': State, c: nat, d: nat, p: Id, values: map<Id, Value>,
                      participant: Participant)
    requires Inv(cat, s) && c in s.clients && s.clients[c].pc.Saving? && d in s.clients
    requires s'.db.rows == s.db.rows + RowsFor(p, values) && s'.db.participants == s.db.participants[p := participant]
    requires s'.clients == s.clients[c := s.clients[c].(pc := Saved, granted := {})]
    requires s.clients[c].sub.participant == Some(p) || forall e :: e in s.clients ==>
        s.clients[e].sub.participant != Some(p)
    ensures ClientOk(cat, s'.db, s'.clients[d])
  {
    assert ClientOk(cat, s.db, s.clients[d]);
    if d != c && !s.clients[d].pc.Closed? {
      assert BothOpen(s.clients[c], s.clients[d]);
      OthersKept(s.db, s'.db, s.clients[d], p, values, participant);
      KeptClientOk(cat, s.db, s'.db, s.clients[d]);
    }
  }

  // Every run

  lemma StepKeepsInv(cat: Catalog, s: State, action: Action)
    requires cat.prefix != "" && Inv(cat, s) && Disciplined(cat, s, action) && Step(cat, s, action).Some?
    ensures Inv(cat, Step(cat, s, action).value)
  {
    match action
    case Begin(c, event, form, sub, now) => BeginKeepsInv(cat, s, c, event, form, sub, now);
    case NextEntry(c) => EntryStepKeepsInv(cat, s, c);
    case NextBlock(c) => BlockStepKeepsInv(cat, s, c);
    case Lock(c) => LockKeepsInv(cat, s, c);
    case Check(c) => CheckKeepsInv(cat, s, c);
    case Save(c, id) => SaveKeepsInv(cat, s, c, id);
    case Finish(c) => MoveKeepsInv(cat, s, c, Close(s.clients[c]));
    case Delete(event, participants) => DeleteKeepsInv(cat, s, event, participants);
  }

  lemma {:induction false} RunKeepsInv(cat: Catalog, s: State, actions: seq<Action>)
    requires cat.prefix != "" && Inv(cat, s) && DisciplinedRun(cat, s, actions) && Run(cat, s, actions).Some?
    ensures Inv(cat, Run(cat, s, actions).value)
    decreases actions
  {
    if actions != [] {
      StepKeepsInv(cat, s, actions[0]);
      RunKeepsInv(cat, Step(cat, s, actions[0]).value, actions[1..]);
    }
  }

  /** However submissions and deletions interleave, no spelling of an id is stored more often than its capacity. */
  lemma SpellingNeverExceedsCapacity(cat: Catalog, db: Db, actions: seq<Action>)
    requires cat.prefix != "" && SpellingsWithinCapacity(cat, db.rows)
    requires DisciplinedRun(cat, State(db, map[]), actions) && Run(cat, State(db, map[]), actions).Some?
    ensures SpellingsWithinCapacity(cat, Run(cat, State(db, map[]), actions).value.db.rows)
  {
    var s := State(db, map[]);
    assert Inv(cat, s) by {
      forall text | LimitedText(cat, text) ensures Booked(cat, s, text) {
        assert !Reserved(s, text);
      }
    }
    RunKeepsInv(cat, s, actions);
    var s' := Run(cat, s, actions).value;
    forall text | LimitedText(cat, text)
      ensures |SpelledRows(cat, s'.db.rows, text)| <= Bound(cat, cat.fmt.uuidValue(text))
    {
      assert Booked(cat, s', text);
    }
  }
}
