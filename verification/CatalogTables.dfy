/**
 Attributes, blocks and tickets as the services change them: what each call answers and what it leaves.

 The database's own rules are part of it: primary keys, the unique and check constraints of tickets,
 and the deletions that cascade along parents and attributes. A call that fails changes nothing.
 */
module CatalogTables {
  import opened Wrappers
  import opened Text
  import opened Values
  import opened Store
  import opened BlockTree

  datatype AttributeRow = AttributeRow(event: Id, kind: AttributeType, name: string, config: Value)

  datatype TicketMode = EventMode | BlockMode

  datatype TicketRow = TicketRow(event: Id, mode: TicketMode, attribute: Option<Id>, shown: set<Id>)

  /** `events` are the events by slug. */
  datatype Tables = Tables(events: map<string, Id>, attributes: map<Id, AttributeRow>, blocks: Table,
      tickets: map<Id, TicketRow>)

  // The config of an attribute

  function FieldOr(fields: map<string, Value>, key: string): Value {
    if key in fields then fields[key] else Undefined
  }

  function StrictStrings(fields: map<string, Value>, key: string): Option<seq<string>> {
    if FieldOr(fields, key).Arr? then Some(NonBlankStrings(FieldOr(fields, key).items)) else None
  }

  predicate IsPositiveInteger(v: Value) {
    v.Num? && v.n.Finite? && v.n.r.Floor as real == v.n.r && v.n.r > 0.0
  }

  /** The field to store: `None` when it is absent. */
  function StrictPositive(fields: map<string, Value>, key: string): Result<Option<Value>> {
    var v := FieldOr(fields, key);
    if v.Undefined? then Ok(None) else if IsPositiveInteger(v) then Ok(Some(v)) else Err(BadRequest)
  }

  function With(fields: map<string, Value>, key: string, v: Option<Value>): map<string, Value> {
    if v.Some? then fields[key := v.value] else fields
  }

  predicate IsField(fmt: Formats, s: string) {
    s == "email" || fmt.isUuid(s)
  }

  function NormalizeChoiceConfig(kind: AttributeType, config: Value): Result<Value> {
    if !config.Obj? then Err(BadRequest)
    else
      var options := StrictStrings(config.fields, "options");
      if options.None? || options.value == [] then Err(BadRequest)
      else
        var allowOther := FieldOr(config.fields, "allowOther");
        var fields := With(map["options" := Arr(StringArray(options.value))],
                           "allowOther", if allowOther.Bool? then Some(allowOther) else None);
        if kind.MultiSelect? then
          var max :- StrictPositive(config.fields, "maxSelections");
          Ok(Obj(With(fields, "maxSelections", max)))
        else Ok(Obj(fields))
  }

  function NormalizeBlockConfig(fmt: Formats, config: Value): Result<Value> {
    var fields := map["maxSelections" := Num(Finite(1.0))];
    if !config.Obj? then Ok(Obj(fields))
    else
      var max :- StrictPositive(config.fields, "maxSelections");
      var fields := With(fields, "maxSelections", max);
      if FieldOr(config.fields, "participantFields").Undefined? then Ok(Obj(fields))
      else
        var strings := StrictStrings(config.fields, "participantFields");
        if strings.None? then Err(BadRequest)
        else
          var trimmed := TrimAll(strings.value);
          if exists i :: 0 <= i < |trimmed| && !IsField(fmt, trimmed[i]) then Err(BadRequest)
          else Ok(Obj(fields["participantFields" := Arr(StringArray(trimmed))]))
  }

  /** What is stored for a submitted config; `config` is not an object when none was sent. */
  function NormalizeConfig(fmt: Formats, kind: AttributeType, config: Value): Result<Value> {
    match kind
    case Select => NormalizeChoiceConfig(kind, config)
    case MultiSelect => NormalizeChoiceConfig(kind, config)
    case BlockType => NormalizeBlockConfig(fmt, config)
    case _ => Ok(Obj(map[]))
  }

  // Deleting blocks

  function Orphans(t: Table, gone: set<Id>): set<Id> {
    set b | b in t && b !in gone && t[b].parent.Some? && t[b].parent.value in gone
  }

  /** Deleting blocks deletes their children, and so on. */
  function Cascade(t: Table, gone: set<Id>): Table
    decreases t.Keys - gone
  {
    var more := Orphans(t, gone);
    if more == {} then t - gone else Cascade(t, gone + more)
  }

  function BlocksOfAttribute(t: Table, a: Id): set<Id> {
    set b | b in t && t[b].attribute == Some(a)
  }

  // Blocks

  predicate AttributeOf(tb: Tables, event: Id, a: Id) {
    a in tb.attributes && tb.attributes[a].event == event
  }

  predicate BlockOf(tb: Tables, a: Id, b: Id) {
    b in tb.blocks && tb.blocks[b].attribute == Some(a)
  }

  datatype NewBlock = NewBlock(parent: Id, name: string, order: Option<int>, capacity: Option<int>)

  datatype ParentChange = KeepParent | NullParent | ToParent(text: IdText)

  datatype BlockChange = BlockChange(parent: ParentChange, name: Option<string>, order: Option<Option<int>>,
      capacity: Option<Option<int>>)

  function AddBlock(tb: Tables, b: Id, row: BlockRow): Result<Tables> {
    if b in tb.blocks then Err(Conflict) else Ok(tb.(blocks := tb.blocks[b := row]))
  }

  /** `b` is the id the new block got. */
  function CreateBlock(tb: Tables, event: Id, a: Id, block: NewBlock, b: Id, now: int): Result<Tables> {
    if !AttributeOf(tb, event, a) || !BlockOf(tb, a, block.parent) then Err(NotFound)
    else AddBlock(tb, b, BlockRow(Some(a), Some(block.parent), false, block.name, block.order, now, block.capacity))
  }

  predicate Found(tb: Tables, event: Id, a: Id, b: Id) {
    AttributeOf(tb, event, a) && BlockOf(tb, a, b)
  }

  function Changed(fmt: Formats, row: BlockRow, change: BlockChange): BlockRow {
    row.(parent := if change.parent.ToParent? then Some(fmt.uuidValue(change.parent.text)) else row.parent,
         name := change.name.GetOr(row.name),
         order := change.order.GetOr(row.order),
         capacity := change.capacity.GetOr(row.capacity))
  }

  /** A block may not be its own parent, says a comparison of the texts that name the two. */
  function UpdateBlock(fmt: Formats, tb: Tables, event: Id, a: Id, text: IdText, change: BlockChange): Result<Tables> {
    var b := fmt.uuidValue(text);
    if !Found(tb, event, a, b) then Err(NotFound)
    else if tb.blocks[b].isRoot then Err(BadRequest)
    else if change.parent == ToParent(text) then Err(BadRequest)
    else if change.parent.NullParent? then Err(Internal)
    else if change.parent.ToParent? && !BlockOf(tb, a, fmt.uuidValue(change.parent.text)) then Err(NotFound)
    else Ok(tb.(blocks := tb.blocks[b := Changed(fmt, tb.blocks[b], change)]))
  }

  function DuplicateBlock(tb: Tables, event: Id, a: Id, b: Id, name: Option<string>, copy: Id,
                          now: int): Result<Tables>
  {
    if !Found(tb, event, a, b) then Err(NotFound)
    else if tb.blocks[b].isRoot then Err(BadRequest)
    else
      var row := tb.blocks[b];
      AddBlock(tb, copy, row.(name := name.GetOr(row.name + " - copy"), createdAt := now))
  }

  function RemoveBlock(tb: Tables, event: Id, a: Id, b: Id): Result<Tables> {
    if !Found(tb, event, a, b) then Err(NotFound)
    else if tb.blocks[b].isRoot then Err(BadRequest)
    else Ok(tb.(blocks := Cascade(tb.blocks, {b})))
  }

  /** Nothing happens when the attribute has a root already. */
  function EnsureRootBlock(tb: Tables, event: Id, a: Id, name: string, root: Id, now: int): Result<Tables> {
    if !AttributeOf(tb, event, a) then Err(NotFound)
    else if exists b :: b in tb.blocks && BlockOf(tb, a, b) && tb.blocks[b].isRoot then Ok(tb)
    else AddBlock(tb, root, BlockRow(Some(a), None, true, name, Some(0), now, None))
  }

  // Attributes

  datatype NewAttribute = NewAttribute(name: string, kind: AttributeType, config: Value)

  datatype AttributeChange = AttributeChange(name: Option<string>, kind: Option<AttributeType>, config: Value)

  /** `a` and `root` are the ids a new attribute and its root block get. */
  function CreateTx(fmt: Formats, tb: Tables, event: Id, attribute: NewAttribute, a: Id, root: Id,
                    now: int): Result<Tables>
  {
    var config :- NormalizeConfig(fmt, attribute.kind, attribute.config);
    if a in tb.attributes then Err(Conflict)
    else
      var added := tb.(attributes := tb.attributes[a := AttributeRow(event, attribute.kind, attribute.name, config)]);
      if attribute.kind.BlockType? then EnsureRootBlock(added, event, a, attribute.name, root, now) else Ok(added)
  }

  predicate HasTicket(tb: Tables, a: Id) {
    exists k :: k in tb.tickets && tb.tickets[k].attribute == Some(a)
  }

  function RenameRoots(t: Table, a: Id, name: string): Table {
    map b | b in t :: if t[b].attribute == Some(a) && t[b].isRoot then t[b].(name := name) else t[b]
  }

  /** What an update finds first: the attribute's row, which it does not lock. */
  function ReadForUpdate(tb: Tables, event: Id, a: Id, change: AttributeChange): Result<AttributeRow> {
    if !AttributeOf(tb, event, a) then Err(NotFound)
    else
      var was := tb.attributes[a];
      if was.kind.BlockType? && !change.kind.GetOr(was.kind).BlockType? && HasTicket(tb, a) then Err(Conflict)
      else Ok(was)
  }

  /** The config to store: `None` leaves it alone, when none is sent and the type that was read is kept. */
  function ChangedConfig(fmt: Formats, was: AttributeRow, change: AttributeChange): Result<Option<Value>> {
    var kind := change.kind.GetOr(was.kind);
    if change.config.Undefined? && kind == was.kind then Ok(None)
    else
      var config :- NormalizeConfig(fmt, kind, change.config);
      Ok(Some(config))
  }

  /** Only what was sent is set. */
  function ChangedRow(row: AttributeRow, change: AttributeChange, config: Option<Value>): AttributeRow {
    row.(name := change.name.GetOr(row.name), kind := change.kind.GetOr(row.kind), config := config.GetOr(row.config))
  }

  /** What an update that has read `was` then writes; what becomes of the blocks is decided by the row that was read. */
  function WriteUpdate(fmt: Formats, tb: Tables, event: Id, a: Id, was: AttributeRow, change: AttributeChange,
                       root: Id, now: int): Result<Tables>
  {
    var config :- ChangedConfig(fmt, was, change);
    if !AttributeOf(tb, event, a) then Err(Internal)
    else
      var row := ChangedRow(tb.attributes[a], change, config);
      var updated := tb.(attributes := tb.attributes[a := row]);
      var kind := change.kind.GetOr(was.kind);
      if !was.kind.BlockType? && kind.BlockType? then EnsureRootBlock(updated, event, a, row.name, root, now)
      else if was.kind.BlockType? && !kind.BlockType? then
        Ok(updated.(blocks := Cascade(updated.blocks, BlocksOfAttribute(updated.blocks, a))))
      else if was.kind.BlockType? && kind.BlockType? && change.name.Some? && change.name.value != was.name then
        Ok(updated.(blocks := RenameRoots(updated.blocks, a, change.name.value)))
      else Ok(updated)
  }

  /** The reading and the writing, with nothing in between. */
  function UpdateTx(fmt: Formats, tb: Tables, event: Id, a: Id, change: AttributeChange, root: Id,
                    now: int): Result<Tables>
  {
    var was :- ReadForUpdate(tb, event, a, change);
    WriteUpdate(fmt, tb, event, a, was, change, root, now)
  }

  predicate HasEvent(tb: Tables, event: Id) {
    event in tb.events.Values
  }

  function CreateAttribute(fmt: Formats, tb: Tables, event: Id, attribute: NewAttribute, a: Id, root: Id,
                           now: int): Result<Tables>
  {
    if !HasEvent(tb, event) then Err(NotFound) else CreateTx(fmt, tb, event, attribute, a, root, now)
  }

  function UpdateAttribute(fmt: Formats, tb: Tables, event: Id, a: Id, change: AttributeChange, root: Id,
                           now: int): Result<Tables>
  {
    if !HasEvent(tb, event) then Err(NotFound) else UpdateTx(fmt, tb, event, a, change, root, now)
  }

  /** The attribute's tickets go with it, and it is no longer shown on others. */
  function DropTickets(tickets: map<Id, TicketRow>, a: Id): map<Id, TicketRow> {
    map k | k in tickets && tickets[k].attribute != Some(a) :: tickets[k].(shown := tickets[k].shown - {a})
  }

  function RemoveAttribute(tb: Tables, event: Id, a: Id): Result<Tables> {
    if !HasEvent(tb, event) || !AttributeOf(tb, event, a) then Err(NotFound)
    else Ok(tb.(blocks := Cascade(tb.blocks, BlocksOfAttribute(tb.blocks, a)),
                attributes := tb.attributes - {a},
                tickets := DropTickets(tb.tickets, a)))
  }

  /** One item of a bulk update, with the ids that new rows get. */
  datatype Item =
    | CreateItem(attribute: NewAttribute, a: Id, root: Id)
    | UpdateItem(a: Id, change: AttributeChange, root: Id)

  function ApplyItem(fmt: Formats, tb: Tables, event: Id, item: Item, now: int): Result<Tables> {
    match item
    case CreateItem(attribute, a, root) => CreateTx(fmt, tb, event, attribute, a, root, now)
    case UpdateItem(a, change, root) => UpdateTx(fmt, tb, event, a, change, root, now)
  }

  function ApplyItems(fmt: Formats, tb: Tables, event: Id, items: seq<Item>, now: int): Result<Tables>
    decreases items
  {
    if items == [] then Ok(tb)
    else
      var next :- ApplyItem(fmt, tb, event, items[0], now);
      ApplyItems(fmt, next, event, items[1..], now)
  }

  function BulkUpdateAttributes(fmt: Formats, tb: Tables, event: Id, items: seq<Item>, now: int): Result<Tables> {
    if !HasEvent(tb, event) then Err(NotFound) else ApplyItems(fmt, tb, event, items, now)
  }

  // Tickets

  function ValidateTarget(tb: Tables, event: Id, a: Id): Result<()> {
    if !AttributeOf(tb, event, a) then Err(NotFound)
    else if !tb.attributes[a].kind.BlockType? then Err(BadRequest)
    else Ok(())
  }

  /** The texts of the request are compared with the ids that were found, so each is spelled as an id is stored. */
  function ValidateShown(tb: Tables, event: Id, shown: seq<IdText>): Result<()> {
    if exists i :: 0 <= i < |shown| && !AttributeOf(tb, event, shown[i]) then Err(NotFound)
    else if exists i :: 0 <= i < |shown| && AttributeOf(tb, event, shown[i]) && FileLike(tb.attributes[shown[i]].kind)
      then Err(BadRequest)
    else Ok(())
  }

  /** The unique indexes: one ticket per attribute, one event ticket per event, an attribute shown once. */
  predicate TicketClashes(tb: Tables, k: Id, row: TicketRow, shown: seq<IdText>) {
    || k in tb.tickets
    || !Distinct(shown)
    || (row.attribute.Some? && HasTicket(tb, row.attribute.value))
    || (row.mode.EventMode? &&
        exists j :: j in tb.tickets && tb.tickets[j].event == row.event && tb.tickets[j].mode.EventMode?)
  }

  function ValidateTicket(tb: Tables, event: Id, mode: TicketMode, attribute: Option<Id>,
                          shown: seq<IdText>): Result<()>
  {
    if !HasEvent(tb, event) then Err(NotFound)
    else if mode.EventMode? && attribute.Some? then Err(BadRequest)
    else
      var target :- if mode.BlockMode? && attribute.Some? then ValidateTarget(tb, event, attribute.value) else Ok(());
      ValidateShown(tb, event, shown)
  }

  /** The check constraint and the foreign keys, which look at no more than that a row is there. */
  predicate TicketFits(tb: Tables, row: TicketRow) {
    && (row.mode.BlockMode? <==> row.attribute.Some?)
    && HasEvent(tb, row.event)
    && (row.attribute.Some? ==> row.attribute.value in tb.attributes)
    && row.shown <= tb.attributes.Keys
  }

  /** What the database does with the new row and with one row for each attribute shown. */
  function InsertTicket(tb: Tables, event: Id, mode: TicketMode, attribute: Option<Id>, shown: seq<IdText>,
                        k: Id): Result<Tables>
  {
    var row := TicketRow(event, mode, attribute, set a | a in shown);
    if mode.BlockMode? && attribute.None? then Err(Internal)
    else if TicketClashes(tb, k, row, shown) then Err(Conflict)
    else if !TicketFits(tb, row) then Err(Internal)
    else Ok(tb.(tickets := tb.tickets[k := row]))
  }

  /** The validation and the insertion, with nothing in between. */
  function CreateTicket(tb: Tables, event: Id, mode: TicketMode, attribute: Option<Id>, shown: seq<IdText>,
                        k: Id): Result<Tables>
  {
    var valid :- ValidateTicket(tb, event, mode, attribute, shown);
    InsertTicket(tb, event, mode, attribute, shown, k)
  }

  predicate TicketOf(tb: Tables, event: Id, k: Id) {
    k in tb.tickets && tb.tickets[k].event == event
  }

  function UpdateTicket(tb: Tables, event: Id, k: Id, shown: seq<IdText>): Result<Tables> {
    if !TicketOf(tb, event, k) then Err(NotFound)
    else
      var valid :- ValidateShown(tb, event, shown);
      if !Distinct(shown) then Err(Internal)
      else Ok(tb.(tickets := tb.tickets[k := tb.tickets[k].(shown := set a | a in shown)]))
  }

  function RemoveTicket(tb: Tables, event: Id, k: Id): Result<Tables> {
    if !TicketOf(tb, event, k) then Err(NotFound) else Ok(tb.(tickets := tb.tickets - {k}))
  }
}
