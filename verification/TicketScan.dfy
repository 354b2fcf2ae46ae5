/**
 Scanning tickets, confirming attendance, and listing who has been confirmed.

 Participants, values, tickets and blocks stay as they are here; confirming adds check-ins. A check-in is
 unique for its ticket, participant and block, no block counting as one.
 */
module TicketScan {
  import opened Wrappers
  import opened Values
  import opened Store
  import opened BlockTree
  import opened CatalogTables

  /** A participant's ticket token is unique. */
  datatype Holder = Holder(event: Id, email: string, token: string)

  datatype Event = Event(uuidValue: IdText -> Id, holders: map<Id, Holder>, rows: map<RowKey, Value>,
                         tickets: map<Id, TicketRow>, blocks: Table)

  datatype Scope = Scope(ticket: Id, participant: Id, block: Option<Id>)

  /** Check-ins are stored and looked up by the value of the block's id; a stored value is searched for its text. */
  function ScopeFor(e: Event, k: Id, p: Id, block: Option<IdText>): Scope {
    Scope(k, p, if block.Some? then Some(e.uuidValue(block.value)) else None)
  }

  datatype CheckIn = CheckIn(scope: Scope, at: int, admin: Id)

  datatype Status =
    | InvalidTicket
    | WrongEvent
    | WrongBlock(blockNames: seq<string>)
    | Valid(participant: Id)
    | AlreadyConfirmed(participant: Id, at: int)

  ghost predicate TokensUnique(e: Event) {
    forall p, q :: p in e.holders && q in e.holders && e.holders[p].token == e.holders[q].token ==> p == q
  }

  // Scanning

  function ToStringArray(v: Value): seq<string> {
    match v
    case Str(s) => [s]
    case Arr(items) => StringsOf(items)
    case _ => []
  }

  /** The ticket, if the block given fits it. */
  function FindForBlockContext(e: Event, event: Id, k: Id, block: Option<IdText>): Result<TicketRow> {
    if k !in e.tickets || e.tickets[k].event != event then Err(NotFound)
    else
      var ticket := e.tickets[k];
      match ticket.mode
      case EventMode => if block.Some? then Err(BadRequest) else Ok(ticket)
      case BlockMode =>
        if block.None? || ticket.attribute.None? then Err(BadRequest)
        else
          var b := e.uuidValue(block.value);
          if b !in e.blocks || e.blocks[b].attribute != ticket.attribute then Err(NotFound) else Ok(ticket)
  }

  ghost function HolderOf(e: Event, token: string): Option<Id> {
    if p :| p in e.holders && e.holders[p].token == token then Some(p) else None
  }

  /** The names of those blocks, spelled as they are stored, that belong to the attribute, in order. */
  function NamesOf(blocks: Table, ids: seq<IdText>, a: Id): seq<string> {
    if ids == [] then []
    else
      var rest := NamesOf(blocks, ids[1..], a);
      if ids[0] in blocks && blocks[ids[0]].attribute == Some(a) then [blocks[ids[0]].name] + rest else rest
  }

  function ValueOf(e: Event, p: Id, a: Id): Value {
    RowOr(e.rows, (p, a), Null)
  }

  ghost function CheckInOf(checkIns: map<Id, CheckIn>, scope: Scope): Option<CheckIn> {
    if i :| i in checkIns && checkIns[i].scope == scope then Some(checkIns[i]) else None
  }

  ghost function Judge(e: Event, checkIns: map<Id, CheckIn>, event: Id, k: Id, ticket: TicketRow, p: Id,
                       block: Option<IdText>): Status
    requires p in e.holders
  {
    if e.holders[p].event != event then WrongEvent
    else if ticket.mode.BlockMode? && ticket.attribute.Some?
         && (block.None? || block.value !in ToStringArray(ValueOf(e, p, ticket.attribute.value))) then
      WrongBlock(NamesOf(e.blocks, ToStringArray(ValueOf(e, p, ticket.attribute.value)), ticket.attribute.value))
    else
      var checkIn := CheckInOf(checkIns, ScopeFor(e, k, p, block));
      if checkIn.None? then Valid(p) else AlreadyConfirmed(p, checkIn.value.at)
  }

  /** What a scan answers. */
  ghost function Scan(e: Event, checkIns: map<Id, CheckIn>, event: Id, k: Id, token: string,
                      block: Option<IdText>): Result<Status>
  {
    var ticket :- FindForBlockContext(e, event, k, block);
    var p := HolderOf(e, token);
    Ok(if p.None? then InvalidTicket else Judge(e, checkIns, event, k, ticket, p.value, block))
  }

  // Confirming

  ghost predicate OnePerScope(checkIns: map<Id, CheckIn>) {
    forall i, j :: i in checkIns && j in checkIns && checkIns[i].scope == checkIns[j].scope ==> i == j
  }

  /** An insert that the unique index may refuse. */
  function InsertCheckIn(checkIns: map<Id, CheckIn>, i: Id, row: CheckIn): Result<map<Id, CheckIn>> {
    if i in checkIns || exists j :: j in checkIns && checkIns[j].scope == row.scope then Err(Conflict)
    else Ok(checkIns[i := row])
  }

  /** What a confirmation answers for a scanned status, before the insert. */
  function Admitted(status: Result<Status>): Result<Id> {
    match status
    case Err(error) => Err(error)
    case Ok(Valid(p)) => Ok(p)
    case Ok(AlreadyConfirmed(_, _)) => Err(Conflict)
    case Ok(_) => Err(Unprocessable)
  }

  /** A confirmation that nothing interrupts; `i` is the id of the new row. */
  ghost function ConfirmAlone(e: Event, checkIns: map<Id, CheckIn>, event: Id, k: Id, token: string,
                              block: Option<IdText>,
                              i: Id, now: int, admin: Id): Result<map<Id, CheckIn>>
  {
    var p :- Admitted(Scan(e, checkIns, event, k, token, block));
    InsertCheckIn(checkIns, i, CheckIn(ScopeFor(e, k, p, block), now, admin))
  }

  lemma TheCheckIn(checkIns: map<Id, CheckIn>, i: Id)
    requires OnePerScope(checkIns) && i in checkIns
    ensures CheckInOf(checkIns, checkIns[i].scope) == Some(checkIns[i])
  {
  }

  lemma NoCheckIn(checkIns: map<Id, CheckIn>, scope: Scope)
    ensures CheckInOf(checkIns, scope).None? <==> forall i :: i in checkIns ==> checkIns[i].scope != scope
  {
  }

  lemma OtherCheckIns(checkIns: map<Id, CheckIn>, i: Id, row: CheckIn, scope: Scope)
    requires OnePerScope(checkIns) && InsertCheckIn(checkIns, i, row).Ok?
    ensures OnePerScope(InsertCheckIn(checkIns, i, row).value)
    ensures CheckInOf(InsertCheckIn(checkIns, i, row).value, scope) == if scope == row.scope then Some(row)
      else CheckInOf(checkIns, scope)
  {
    var after := InsertCheckIn(checkIns, i, row).value;
    if scope == row.scope {
      TheCheckIn(after, i);
    } else if CheckInOf(checkIns, scope).Some? {
      var j :| j in checkIns && checkIns[j].scope == scope;
      TheCheckIn(checkIns, j);
      TheCheckIn(after, j);
    } else {
      NoCheckIn(checkIns, scope);
      NoCheckIn(after, scope);
    }
  }

  /** The scope a scan is about, if it finds a participant of the event. */
  ghost function ScopeOf(e: Event, k: Id, token: string, block: Option<IdText>): Option<Scope> {
    var p := HolderOf(e, token);
    if p.None? then None else Some(ScopeFor(e, k, p.value, block))
  }

  /**
   Confirming succeeds exactly when a scan says the ticket is valid; then exactly the scans of that ticket,
   participant and block turn into "already confirmed", at the time of the confirmation.
   */
  lemma ConfirmExactly(e: Event, checkIns: map<Id, CheckIn>, event: Id, k: Id, token: string, block: Option<IdText>,
                       i: Id,
                       now: int, admin: Id,
                       event': Id, k': Id, token': string, block': Option<IdText>)
    requires OnePerScope(checkIns) && i !in checkIns
    ensures var scanned := Scan(e, checkIns, event, k, token, block);
      var confirmed := ConfirmAlone(e, checkIns, event, k, token, block, i, now, admin);
      && (confirmed.Ok? <==> scanned.Ok? && scanned.value.Valid?)
      && (confirmed == Err(Conflict) <==> scanned.Ok? && scanned.value.AlreadyConfirmed?)
      && (confirmed.Ok? ==>
           OnePerScope(confirmed.value)
           && Scan(e, confirmed.value, event', k', token', block') ==
             var before := Scan(e, checkIns, event', k', token', block');
             if before.Ok? && before.value.Valid? &&
                 ScopeOf(e, k', token', block') == Some(ScopeFor(e, k, scanned.value.participant, block))
             then Ok(AlreadyConfirmed(scanned.value.participant, now)) else before)
  {
    var scanned := Scan(e, checkIns, event, k, token, block);
    if scanned.Ok? && scanned.value.Valid? {
      var p := scanned.value.participant;
      NoCheckIn(checkIns, ScopeFor(e, k, p, block));
      var row := CheckIn(ScopeFor(e, k, p, block), now, admin);
      assert InsertCheckIn(checkIns, i, row).Ok?;
      var q := HolderOf(e, token');
      if q.Some? {
        OtherCheckIns(checkIns, i, row, ScopeFor(e, k', q.value, block'));
      } else {
        OtherCheckIns(checkIns, i, row, row.scope);
      }
    }
  }

  // Concurrent confirmations

  /** A confirmation that found the ticket valid, and what came of its insert. */
  datatype Pending = Judged(scope: Scope, admin: Id) | Confirmed(scope: Scope) | Rejected

  datatype State = State(checkIns: map<Id, CheckIn>, pending: map<nat, Pending>)

  datatype Action =
    | Evaluate(c: nat, event: Id, k: Id, token: string, block: Option<IdText>, admin: Id)
    | InsertRow(c: nat, i: Id, now: int)

  ghost function Step(e: Event, s: State, action: Action): Option<State> {
    match action
    case Evaluate(c, event, k, token, block, admin) =>
      if c in s.pending then None
      else
        var admitted := Admitted(Scan(e, s.checkIns, event, k, token, block));
        Some(s.(pending := s.pending[c := if admitted.Ok? then Judged(ScopeFor(e, k, admitted.value, block), admin)
          else Rejected]))
    case InsertRow(c, i, now) =>
      if c in s.pending && s.pending[c].Judged? && i !in s.checkIns then
        var scope := s.pending[c].scope;
        match InsertCheckIn(s.checkIns, i, CheckIn(scope, now, s.pending[c].admin))
        case Ok(checkIns) => Some(State(checkIns, s.pending[c := Confirmed(scope)]))
        case Err(_) => Some(s.(pending := s.pending[c := Rejected]))
      else None
  }

  ghost function Run(e: Event, s: State, actions: seq<Action>): Option<State>
    decreases actions
  {
    if actions == [] then Some(s)
    else
      var next := Step(e, s, actions[0]);
      if next.Some? then Run(e, next.value, actions[1..]) else None
  }

  /** One check-in a scope, and one confirmed request for each of those made. */
  ghost predicate ConfirmedOnce(s: State) {
    && OnePerScope(s.checkIns)
    && (forall c :: c in s.pending && s.pending[c].Confirmed? ==>
        exists i :: i in s.checkIns && s.checkIns[i].scope == s.pending[c].scope)
    && forall c, d :: c in s.pending && d in s.pending && s.pending[c].Confirmed? && s.pending[d] == s.pending[c] ==>
        c == d
  }

  lemma StepConfirmedOnce(e: Event, s: State, action: Action)
    requires ConfirmedOnce(s) && Step(e, s, action).Some?
    ensures ConfirmedOnce(Step(e, s, action).value)
  {
    var s' := Step(e, s, action).value;
    forall c | c in s'.pending && s'.pending[c].Confirmed?
      ensures exists i :: i in s'.checkIns && s'.checkIns[i].scope == s'.pending[c].scope
    {
      if c in s.pending && s.pending[c].Confirmed? {
        var i :| i in s.checkIns && s.checkIns[i].scope == s.pending[c].scope;
        assert s'.checkIns[i] == s.checkIns[i];
      } else {
        assert s'.checkIns[action.i].scope == s'.pending[c].scope;
      }
    }
  }

  /** However scans and inserts interleave, a ticket is confirmed at most once for a participant and block. */
  lemma {:induction false} RunConfirmedOnce(e: Event, s: State, actions: seq<Action>)
    requires ConfirmedOnce(s) && Run(e, s, actions).Some?
    ensures ConfirmedOnce(Run(e, s, actions).value)
    decreases actions
  {
    if actions != [] {
      StepConfirmedOnce(e, s, actions[0]);
      RunConfirmedOnce(e, Step(e, s, actions[0]).value, actions[1..]);
    }
  }

  // Listing

  datatype Condition =
    | HoldsBlock(attribute: Id, block: IdText)
    | CheckedIn(ticket: Id, inBlock: Option<IdText>)
    | NotCheckedIn(ticket: Id, inBlock: Option<IdText>)
    | EmailContains(search: string)

  predicate HasCheckIn(checkIns: map<Id, CheckIn>, scope: Scope) {
    exists i :: i in checkIns && checkIns[i].scope == scope
  }

  /** `contains` is the database's case-insensitive text search. */
  predicate Meets(e: Event, checkIns: map<Id, CheckIn>, contains: (string, string) -> bool, p: Id, condition: Condition)
    requires p in e.holders
  {
    match condition
    case HoldsBlock(a, b) => (p, a) in e.rows && (Holds(e.rows[(p, a)], b) || e.rows[(p, a)] == Str(b))
    case CheckedIn(k, block) => HasCheckIn(checkIns, ScopeFor(e, k, p, block))
    case NotCheckedIn(k, block) => !HasCheckIn(checkIns, ScopeFor(e, k, p, block))
    case EmailContains(search) => contains(e.holders[p].email, search)
  }

  /** The listed participants, each with whether it is shown as confirmed. */
  method FindAll(e: Event, checkIns: map<Id, CheckIn>, contains: (string, string) -> bool,
                 event: Id, k: Id, block: Option<IdText>, confirmed: Option<bool>, search: string)
    returns (r: Result<map<Id, bool>>)
    ensures r == Listing(e, checkIns, contains, event, k, block, confirmed, search)
  {
    var found := FindForBlockContext(e, event, k, block);
    if found.Err? {
      return Err(found.error);
    }
    var ticket := found.value;
    var conditions: seq<Condition> := [];
    if ticket.mode.BlockMode? && block.Some? {
      conditions := conditions + [HoldsBlock(ticket.attribute.value, block.value)];
    }
    if confirmed == Some(true) {
      conditions := conditions + [CheckedIn(k, block)];
    }
    if confirmed == Some(false) {
      conditions := conditions + [NotCheckedIn(k, block)];
    }
    if search != "" {
      conditions := conditions + [EmailContains(search)];
    }
    assert conditions == Conditions(ticket, k, block, confirmed, search);
    QueryIsListing(e, checkIns, contains, event, k, ticket, block, confirmed, search);
    return Ok(Query(e, checkIns, contains, event, ScopeFor(e, k, "", block), conditions));
  }

  /** The participants of the event that meet all conditions, with whether they have a check-in in the scope. */
  function Query(e: Event, checkIns: map<Id, CheckIn>, contains: (string, string) -> bool, event: Id, scope: Scope,
                 conditions: seq<Condition>): map<Id, bool>
  {
    map p | p in e.holders && e.holders[p].event == event && MeetsAll(e, checkIns, contains, p, conditions)
      :: HasCheckIn(checkIns, scope.(participant := p))
  }

  lemma QueryIsListing(e: Event, checkIns: map<Id, CheckIn>, contains: (string, string) -> bool,
                       event: Id, k: Id, ticket: TicketRow, block: Option<IdText>, confirmed: Option<bool>,
                           search: string)
    requires FindForBlockContext(e, event, k, block) == Ok(ticket)
    ensures Listing(e, checkIns, contains, event, k, block, confirmed, search)
         == Ok(Query(e, checkIns, contains, event, ScopeFor(e, k, "", block),
             Conditions(ticket, k, block, confirmed, search)))
  {
    var listed := Listing(e, checkIns, contains, event, k, block, confirmed, search).value;
    var found := Query(e, checkIns, contains, event, ScopeFor(e, k, "", block),
        Conditions(ticket, k, block, confirmed, search));
    forall p | p in e.holders ensures p in listed <==> p in found {
      ConditionsMatch(e, checkIns, contains, k, ticket, block, confirmed, search, p);
    }
    assert listed == found;
  }

  predicate MeetsAll(e: Event, checkIns: map<Id, CheckIn>, contains: (string, string) -> bool, p: Id,
                     conditions: seq<Condition>)
    requires p in e.holders
  {
    forall i :: 0 <= i < |conditions| ==> Meets(e, checkIns, contains, p, conditions[i])
  }

  function Conditions(ticket: TicketRow, k: Id, block: Option<IdText>, confirmed: Option<bool>,
                      search: string): seq<Condition>
  {
    If(ticket.mode.BlockMode? && block.Some? &&
        ticket.attribute.Some?, HoldsBlock(ticket.attribute.GetOr(""), block.GetOr("")))
    + If(confirmed == Some(true), CheckedIn(k, block))
    + If(confirmed == Some(false), NotCheckedIn(k, block))
    + If(search != "", EmailContains(search))
  }

  lemma MeetsBoth(e: Event, checkIns: map<Id, CheckIn>, contains: (string, string) -> bool, p: Id, x: seq<Condition>,
                  y: seq<Condition>)
    requires p in e.holders
    ensures MeetsAll(e, checkIns, contains, p, x + y) <==>
        MeetsAll(e, checkIns, contains, p, x) && MeetsAll(e, checkIns, contains, p, y)
  {
    if MeetsAll(e, checkIns, contains, p, x + y) {
      assert forall i :: 0 <= i < |x| ==> x[i] == (x + y)[i];
      assert forall i :: 0 <= i < |y| ==> y[i] == (x + y)[|x| + i];
    }
  }

  function If(c: bool, condition: Condition): seq<Condition> {
    if c then [condition] else []
  }

  lemma MeetsIf(e: Event, checkIns: map<Id, CheckIn>, contains: (string, string) -> bool, p: Id, c: bool,
                condition: Condition)
    requires p in e.holders
    ensures MeetsAll(e, checkIns, contains, p, If(c, condition)) <==> (c ==> Meets(e, checkIns, contains, p, condition))
  {
    if c && MeetsAll(e, checkIns, contains, p, If(c, condition)) {
      assert If(c, condition)[0] == condition;
    }
  }

  lemma ConditionsMatch(e: Event, checkIns: map<Id, CheckIn>, contains: (string, string) -> bool,
                        k: Id, ticket: TicketRow, block: Option<IdText>, confirmed: Option<bool>, search: string, p: Id)
    requires p in e.holders
    ensures MeetsAll(e, checkIns, contains, p, Conditions(ticket, k, block, confirmed, search))
       <==> MatchesQuery(e, checkIns, contains, k, ticket, block, confirmed, search, p)
  {
    var byBlock := If(ticket.mode.BlockMode? && block.Some? &&
        ticket.attribute.Some?, HoldsBlock(ticket.attribute.GetOr(""), block.GetOr("")));
    var yes, no := If(confirmed == Some(true), CheckedIn(k, block)),
        If(confirmed == Some(false), NotCheckedIn(k, block));
    var bySearch := If(search != "", EmailContains(search));
    MeetsBoth(e, checkIns, contains, p, byBlock, yes);
    MeetsBoth(e, checkIns, contains, p, byBlock + yes, no);
    MeetsBoth(e, checkIns, contains, p, byBlock + yes + no, bySearch);
    MeetsIf(e, checkIns, contains, p, ticket.mode.BlockMode? && block.Some? &&
        ticket.attribute.Some?, HoldsBlock(ticket.attribute.GetOr(""), block.GetOr("")));
    MeetsIf(e, checkIns, contains, p, confirmed == Some(true), CheckedIn(k, block));
    MeetsIf(e, checkIns, contains, p, confirmed == Some(false), NotCheckedIn(k, block));
    MeetsIf(e, checkIns, contains, p, search != "", EmailContains(search));
  }

  predicate MatchesQuery(e: Event, checkIns: map<Id, CheckIn>, contains: (string, string) -> bool,
                         k: Id, ticket: TicketRow, block: Option<IdText>, confirmed: Option<bool>, search: string,
                             p: Id)
    requires p in e.holders
  {
    && (ticket.mode.BlockMode? && block.Some? && ticket.attribute.Some? ==>
        Meets(e, checkIns, contains, p, HoldsBlock(ticket.attribute.value, block.value)))
    && (confirmed.Some? ==> (confirmed.value <==> HasCheckIn(checkIns, ScopeFor(e, k, p, block))))
    && (search != "" ==> contains(e.holders[p].email, search))
  }

  function Listing(e: Event, checkIns: map<Id, CheckIn>, contains: (string, string) -> bool,
                   event: Id, k: Id, block: Option<IdText>, confirmed: Option<bool>,
                       search: string): Result<map<Id, bool>>
  {
    var ticket :- FindForBlockContext(e, event, k, block);
    Ok(map p | p in e.holders && e.holders[p].event == event &&
        MatchesQuery(e, checkIns, contains, k, ticket, block, confirmed, search, p)
      :: HasCheckIn(checkIns, ScopeFor(e, k, p, block)))
  }

  lemma {:induction false} StringIn(items: seq<Value>, b: string)
    ensures b in StringsOf(items) <==> Str(b) in items
  {
    if items != [] {
      StringIn(items[1..], b);
      assert items == [items[0]] + items[1..];
    }
  }

  lemma HoldsMeansInArray(v: Value, b: IdText)
    ensures (Holds(v, b) || v == Str(b)) <==> b in ToStringArray(v)
  {
    if v.Arr? {
      StringIn(v.items, b);
    }
  }

  lemma TheHolder(e: Event, p: Id)
    requires TokensUnique(e) && p in e.holders
    ensures HolderOf(e, e.holders[p].token) == Some(p)
  {
  }

  /**
   The listing and the scan agree: filtered by "confirmed" it holds exactly the participants whose scan answers
   "already confirmed", by "not confirmed" exactly those whose scan answers "valid", and unfiltered both.
   */
  lemma ListingMatchesScan(e: Event, checkIns: map<Id, CheckIn>, contains: (string, string) -> bool, event: Id, k: Id,
                           block: Option<IdText>, p: Id)
    requires TokensUnique(e) && p in e.holders && e.holders[p].event == event
    requires FindForBlockContext(e, event, k, block).Ok?
    ensures var status := Scan(e, checkIns, event, k, e.holders[p].token, block).value;
      && (p in Listing(e, checkIns, contains, event, k, block, Some(true), "").value <==> status.AlreadyConfirmed?)
      && (p in Listing(e, checkIns, contains, event, k, block, Some(false), "").value <==> status.Valid?)
      && (p in Listing(e, checkIns, contains, event, k, block, None, "").value <==>
          status.AlreadyConfirmed? || status.Valid?)
      && (p in Listing(e, checkIns, contains, event, k, block, None, "").value ==>
            (Listing(e, checkIns, contains, event, k, block, None, "").value[p] <==> status.AlreadyConfirmed?))
  {
    TheHolder(e, p);
    var ticket := FindForBlockContext(e, event, k, block).value;
    NoCheckIn(checkIns, ScopeFor(e, k, p, block));
    if ticket.mode.BlockMode? {
      HoldsMeansInArray(ValueOf(e, p, ticket.attribute.value), block.value);
    }
  }

  /** For every search the confirmed and the unconfirmed participants are the listed ones, split in two. */
  lemma ListingsPartition(e: Event, checkIns: map<Id, CheckIn>, contains: (string, string) -> bool, event: Id, k: Id,
                          block: Option<IdText>, search: string)
    requires FindForBlockContext(e, event, k, block).Ok?
    ensures var yes := Listing(e, checkIns, contains, event, k, block, Some(true), search).value;
      var no := Listing(e, checkIns, contains, event, k, block, Some(false), search).value;
      var all := Listing(e, checkIns, contains, event, k, block, None, search).value;
      yes.Keys !! no.Keys && yes + no == all
  {
    hide FindForBlockContext;
    hide Meets;
    var yes := Listing(e, checkIns, contains, event, k, block, Some(true), search).value;
    var no := Listing(e, checkIns, contains, event, k, block, Some(false), search).value;
    var all := Listing(e, checkIns, contains, event, k, block, None, search).value;
    assert (yes + no).Keys == all.Keys;
  }

  // The service

  class TicketScanService {
    const e: Event
    var checkIns: map<Id, CheckIn>

    /** Tickets are told apart by their tokens, and there is one check-in for each ticket, participant and block. */
    ghost predicate Valid()
      reads this
    {
      TokensUnique(e) && OnePerScope(checkIns)
    }

    constructor (e: Event)
      requires TokensUnique(e)
      ensures Valid() && this.e == e && checkIns == map[]
    {
      this.e, this.checkIns := e, map[];
    }

    method Evaluate(event: Id, k: Id, token: string, block: Option<IdText>) returns (r: Result<Status>)
      requires Valid()
      ensures r == Scan(e, checkIns, event, k, token, block)
    {
      var found := FindForBlockContext(e, event, k, block);
      if found.Err? {
        return Err(found.error);
      }
      var ticket := found.value;
      if !(exists p :: p in e.holders && e.holders[p].token == token) {
        return Ok(InvalidTicket);
      }
      var p :| p in e.holders && e.holders[p].token == token;
      TheHolder(e, p);
      if e.holders[p].event != event {
        return Ok(WrongEvent);
      }
      if ticket.mode.BlockMode? && ticket.attribute.Some? {
        var blocks := ToStringArray(ValueOf(e, p, ticket.attribute.value));
        if block.None? || block.value !in blocks {
          return Ok(WrongBlock(NamesOf(e.blocks, blocks, ticket.attribute.value)));
        }
      }
      if exists i :: i in checkIns && checkIns[i].scope == ScopeFor(e, k, p, block) {
        var i :| i in checkIns && checkIns[i].scope == ScopeFor(e, k, p, block);
        TheCheckIn(checkIns, i);
        return Ok(AlreadyConfirmed(p, checkIns[i].at));
      }
      return Ok(Status.Valid(p));
    }

    method Confirm(event: Id, k: Id, token: string, block: Option<IdText>, i: Id, now: int, admin: Id)
      returns (r: Result<CheckIn>)
      requires Valid()
      modifies this`checkIns
      ensures Valid()
      ensures match ConfirmAlone(e, old(checkIns), event, k, token, block, i, now, admin)
        case Ok(after) => checkIns == after && r.Ok? && after[i] == r.value
        case Err(error) => checkIns == old(checkIns) && r == Err(error)
    {
      var result := Evaluate(event, k, token, block);
      if result.Err? {
        return Err(result.error);
      }
      if result.value.AlreadyConfirmed? {
        return Err(Conflict);
      }
      if !result.value.Valid? {
        return Err(Unprocessable);
      }
      var row := CheckIn(ScopeFor(e, k, result.value.participant, block), now, admin);
      var inserted := InsertCheckIn(checkIns, i, row);
      if inserted.Err? {
        return Err(Conflict);
      }
      checkIns := inserted.value;
      return Ok(row);
    }
  }
}
