/**
 The attribute, block and ticket services as they run, proved against `CatalogTables`; and the two readers of a
 block tree.
 */
module AttributeStore {
  import opened Wrappers
  import opened Text
  import opened Values
  import opened Store
  import opened BlockTree
  import opened BlockTreeBuilder
  import opened CatalogTables
  import opened CatalogRuns

  /** The rows the admin's reader asks for. */
  function RowsOf(tb: Tables, a: Id): Table {
    map b | b in tb.blocks && tb.blocks[b].attribute == Some(a) :: tb.blocks[b]
  }

  /** The rows the public reader asks for: an unknown slug does not restrict the event. */
  function PublicRows(tb: Tables, slug: string, a: Id): Table {
    map b | b in tb.blocks && tb.blocks[b].attribute == Some(a) && a in tb.attributes
         && (slug in tb.events ==> tb.attributes[a].event == tb.events[slug]) :: tb.blocks[b]
  }

  class AttributeStore {
    const fmt: Formats
    var events: map<string, Id>
    var attributes: map<Id, AttributeRow>
    var blocks: Table
    var tickets: map<Id, TicketRow>

    function Snapshot(): Tables
      reads this
    {
      Tables(events, attributes, blocks, tickets)
    }

    /** What every run of calls keeps: roots, parents, tickets and configs are in order. */
    ghost predicate Valid()
      reads this
    {
      Sound(fmt, Snapshot())
    }

    constructor (fmt: Formats, events: map<string, Id>)
      ensures Valid() && this.fmt == fmt && Snapshot() == Tables(events, map[], map[], map[])
    {
      this.fmt, this.events := fmt, events;
      attributes, blocks, tickets := map[], map[], map[];
    }

    // Attributes

    /** Fills the stored config field by field. */
    method NormalizeConfig(kind: AttributeType, config: Value) returns (r: Result<Value>)
      ensures r == CatalogTables.NormalizeConfig(fmt, kind, config)
    {
      if kind.Select? || kind.MultiSelect? {
        if !config.Obj? {
          return Err(BadRequest);
        }
        var options := StrictStrings(config.fields, "options");
        if options.None? || options.value == [] {
          return Err(BadRequest);
        }
        var fields := map["options" := Arr(StringArray(options.value))];
        var allowOther := FieldOr(config.fields, "allowOther");
        if allowOther.Bool? {
          fields := fields["allowOther" := allowOther];
        }
        if kind.MultiSelect? {
          var max :- StrictPositive(config.fields, "maxSelections");
          if max.Some? {
            fields := fields["maxSelections" := max.value];
          }
        }
        return Ok(Obj(fields));
      }
      if kind.BlockType? {
        var fields := map["maxSelections" := Num(Finite(1.0))];
        if !config.Obj? {
          return Ok(Obj(fields));
        }
        var max :- StrictPositive(config.fields, "maxSelections");
        if max.Some? {
          fields := fields["maxSelections" := max.value];
        }
        if !FieldOr(config.fields, "participantFields").Undefined? {
          var strings := StrictStrings(config.fields, "participantFields");
          if strings.None? {
            return Err(BadRequest);
          }
          var trimmed := TrimAll(strings.value);
          if exists i :: 0 <= i < |trimmed| && !IsField(fmt, trimmed[i]) {
            return Err(BadRequest);
          }
          fields := fields["participantFields" := Arr(StringArray(trimmed))];
        }
        return Ok(Obj(fields));
      }
      return Ok(Obj(map[]));
    }

    method EnsureRootBlock(event: Id, a: Id, name: string, root: Id, now: int) returns (r: Result<()>)
      modifies this`blocks
      ensures Answers(old(Snapshot()), CatalogTables.EnsureRootBlock(old(Snapshot()), event, a, name, root, now),
          Snapshot(), r)
    {
      if a !in attributes || attributes[a].event != event {
        return Err(NotFound);
      }
      if exists b :: b in blocks && blocks[b].attribute == Some(a) && blocks[b].isRoot {
        assert exists b :: b in blocks && BlockOf(Snapshot(), a, b) && blocks[b].isRoot;
        return Ok(());
      }
      if root in blocks {
        return Err(Conflict);
      }
      blocks := blocks[root := BlockRow(Some(a), None, true, name, Some(0), now, None)];
      return Ok(());
    }

    /** Inside a transaction: after a failure the caller rolls back. */
    method CreateTx(event: Id, attribute: NewAttribute, a: Id, root: Id, now: int) returns (r: Result<()>)
      requires Valid() && HasEvent(Snapshot(), event)
      modifies this`attributes, this`blocks
      ensures var answer := CatalogTables.CreateTx(fmt, old(Snapshot()), event, attribute, a, root, now);
        if answer.Ok? then r == Ok(()) && Snapshot() == answer.value else r == Err(answer.error)
      ensures r.Ok? ==> Valid()
    {
      hide Sound;
      if CatalogTables.CreateTx(fmt, Snapshot(), event, attribute, a, root, now).Ok? {
        CreateTxKeeps(fmt, Snapshot(), event, attribute, a, root, now);
      }
      var config := NormalizeConfig(attribute.kind, attribute.config);
      if config.Err? {
        return Err(config.error);
      }
      if a in attributes {
        return Err(Conflict);
      }
      attributes := attributes[a := AttributeRow(event, attribute.kind, attribute.name, config.value)];
      if attribute.kind.BlockType? {
        r := EnsureRootBlock(event, a, attribute.name, root, now);
        return;
      }
      return Ok(());
    }

    method UpdateTx(event: Id, a: Id, change: AttributeChange, root: Id, now: int) returns (r: Result<()>)
      requires Valid() && HasEvent(Snapshot(), event)
      modifies this`attributes, this`blocks
      ensures var answer := CatalogTables.UpdateTx(fmt, old(Snapshot()), event, a, change, root, now);
        if answer.Ok? then r == Ok(()) && Snapshot() == answer.value else r == Err(answer.error)
      ensures r.Ok? ==> Valid()
    {
      hide Sound;
      if CatalogTables.UpdateTx(fmt, Snapshot(), event, a, change, root, now).Ok? {
        UpdateTxKeeps(fmt, Snapshot(), event, a, change, root, now);
      }
      if a !in attributes || attributes[a].event != event {
        return Err(NotFound);
      }
      var was := attributes[a];
      var kind := change.kind.GetOr(was.kind);
      if was.kind.BlockType? && !kind.BlockType? {
        if HasTicket(Snapshot(), a) {
          return Err(Conflict);
        }
      }
      var config := Ok(was.config);
      if !(change.config.Undefined? && kind == was.kind) {
        config := NormalizeConfig(kind, change.config);
      }
      if config.Err? {
        return Err(config.error);
      }
      var updated := was.(name := change.name.GetOr(was.name), kind := kind, config := config.value);
      assert ChangedConfig(fmt, was, change).Ok? &&
          ChangedRow(was, change, ChangedConfig(fmt, was, change).value) == updated;
      attributes := attributes[a := updated];
      if !was.kind.BlockType? && kind.BlockType? {
        r := EnsureRootBlock(event, a, updated.name, root, now);
        return;
      }
      if was.kind.BlockType? && !kind.BlockType? {
        blocks := Cascade(blocks, BlocksOfAttribute(blocks, a));
      }
      if was.kind.BlockType? && kind.BlockType? && change.name.Some? && change.name.value != was.name {
        blocks := RenameRoots(blocks, a, change.name.value);
      }
      return Ok(());
    }

    method CreateAttribute(event: Id, attribute: NewAttribute, a: Id, root: Id, now: int) returns (r: Result<()>)
      requires Valid()
      modifies this
      ensures Answers(old(Snapshot()),
          CatalogTables.CreateAttribute(fmt, old(Snapshot()), event, attribute, a, root, now), Snapshot(), r)
      ensures Valid()
    {
      hide Sound;
      CallKeeps(fmt, Snapshot(), AttributeCreate(event, attribute, a, root, now));
      var before := Snapshot();
      if event !in events.Values {
        return Err(NotFound);
      }
      r := CreateTx(event, attribute, a, root, now);
      if r.Err? {
        attributes, blocks := before.attributes, before.blocks;
      }
    }

    method UpdateAttribute(event: Id, a: Id, change: AttributeChange, root: Id, now: int) returns (r: Result<()>)
      requires Valid()
      modifies this
      ensures Answers(old(Snapshot()), CatalogTables.UpdateAttribute(fmt, old(Snapshot()), event, a, change, root, now),
          Snapshot(), r)
      ensures Valid()
    {
      hide Sound;
      CallKeeps(fmt, Snapshot(), AttributeUpdate(event, a, change, root, now));
      var before := Snapshot();
      if event !in events.Values {
        return Err(NotFound);
      }
      r := UpdateTx(event, a, change, root, now);
      if r.Err? {
        attributes, blocks := before.attributes, before.blocks;
      }
    }

    method RemoveAttribute(event: Id, a: Id) returns (r: Result<()>)
      requires Valid()
      modifies this
      ensures Answers(old(Snapshot()), CatalogTables.RemoveAttribute(old(Snapshot()), event, a), Snapshot(), r)
      ensures Valid()
    {
      hide Sound;
      CallKeeps(fmt, Snapshot(), AttributeRemove(event, a));
      if event !in events.Values || a !in attributes || attributes[a].event != event {
        return Err(NotFound);
      }
      blocks := Cascade(blocks, BlocksOfAttribute(blocks, a));
      attributes := attributes - {a};
      tickets := DropTickets(tickets, a);
      return Ok(());
    }

    /** One transaction for the whole list: the first failure undoes everything. */
    method BulkUpdate(event: Id, items: seq<Item>, now: int) returns (r: Result<()>)
      requires Valid()
      modifies this
      ensures Answers(old(Snapshot()), BulkUpdateAttributes(fmt, old(Snapshot()), event, items, now), Snapshot(), r)
      ensures Valid()
    {
      hide Sound;
      CallKeeps(fmt, Snapshot(), AttributesBulk(event, items, now));
      var before := Snapshot();
      if event !in events.Values {
        return Err(NotFound);
      }
      for i := 0 to |items|
        invariant Valid() && events == before.events && tickets == before.tickets
        invariant ApplyItems(fmt, before, event, items, now) == ApplyItems(fmt, Snapshot(), event, items[i..], now)
      {
        assert items[i..][1..] == items[i + 1..];
        match items[i] {
          case CreateItem(attribute, a, root) => r := CreateTx(event, attribute, a, root, now);
          case UpdateItem(a, change, root) => r := UpdateTx(event, a, change, root, now);
        }
        if r.Err? {
          attributes, blocks := before.attributes, before.blocks;
          return;
        }
      }
      return Ok(());
    }

    // Blocks

    method CreateBlock(event: Id, a: Id, block: NewBlock, b: Id, now: int) returns (r: Result<()>)
      requires Valid()
      modifies this`blocks
      ensures Answers(old(Snapshot()), CatalogTables.CreateBlock(old(Snapshot()), event, a, block, b, now), Snapshot(),
          r)
      ensures Valid()
    {
      hide Sound;
      CallKeeps(fmt, Snapshot(), BlockCreate(event, a, block, b, now));
      if a !in attributes || attributes[a].event != event {
        return Err(NotFound);
      }
      if block.parent !in blocks || blocks[block.parent].attribute != Some(a) {
        return Err(NotFound);
      }
      if b in blocks {
        return Err(Conflict);
      }
      blocks := blocks[b := BlockRow(Some(a), Some(block.parent), false, block.name, block.order, now, block.capacity)];
      return Ok(());
    }

    /** Forbids only a parent named by the text that names the block: cycles away from the root can be built. */
    method UpdateBlock(event: Id, a: Id, text: IdText, change: BlockChange) returns (r: Result<()>)
      requires Valid()
      modifies this`blocks
      ensures Answers(old(Snapshot()), CatalogTables.UpdateBlock(fmt, old(Snapshot()), event, a, text, change),
          Snapshot(),
          r)
      ensures Valid()
    {
      hide Sound;
      CallKeeps(fmt, Snapshot(), BlockUpdate(event, a, text, change));
      var b := fmt.uuidValue(text);
      if !Found(Snapshot(), event, a, b) {
        return Err(NotFound);
      }
      if blocks[b].isRoot {
        return Err(BadRequest);
      }
      match change.parent {
        case KeepParent =>
        case NullParent => return Err(Internal);
        case ToParent(parent) =>
          if parent == text {
            return Err(BadRequest);
          }
          var p := fmt.uuidValue(parent);
          if p !in blocks || blocks[p].attribute != Some(a) {
            return Err(NotFound);
          }
      }
      blocks := blocks[b := Changed(fmt, blocks[b], change)];
      return Ok(());
    }

    method DuplicateBlock(event: Id, a: Id, b: Id, name: Option<string>, copy: Id, now: int) returns (r: Result<()>)
      requires Valid()
      modifies this`blocks
      ensures Answers(old(Snapshot()), CatalogTables.DuplicateBlock(old(Snapshot()), event, a, b, name, copy, now),
          Snapshot(), r)
      ensures Valid()
    {
      hide Sound;
      CallKeeps(fmt, Snapshot(), BlockDuplicate(event, a, b, name, copy, now));
      if !Found(Snapshot(), event, a, b) {
        return Err(NotFound);
      }
      var block := blocks[b];
      if block.isRoot {
        return Err(BadRequest);
      }
      if copy in blocks {
        return Err(Conflict);
      }
      blocks := blocks[copy := BlockRow(block.attribute, block.parent, false, name.GetOr(block.name + " - copy"),
          block.order, now, block.capacity)];
      return Ok(());
    }

    method RemoveBlock(event: Id, a: Id, b: Id) returns (r: Result<()>)
      requires Valid()
      modifies this`blocks
      ensures Answers(old(Snapshot()), CatalogTables.RemoveBlock(old(Snapshot()), event, a, b), Snapshot(), r)
      ensures Valid()
    {
      hide Sound;
      CallKeeps(fmt, Snapshot(), BlockRemove(event, a, b));
      if !Found(Snapshot(), event, a, b) {
        return Err(NotFound);
      }
      if blocks[b].isRoot {
        return Err(BadRequest);
      }
      blocks := Cascade(blocks, {b});
      return Ok(());
    }

    // Tickets

    method CreateTicket(event: Id, mode: TicketMode, attribute: Option<Id>, shown: seq<IdText>, k: Id)
      returns (r: Result<()>)
      requires Valid()
      modifies this`tickets
      ensures Answers(old(Snapshot()), CatalogTables.CreateTicket(old(Snapshot()), event, mode, attribute, shown, k),
          Snapshot(), r)
      ensures Valid()
    {
      hide Sound;
      ghost var before := Snapshot();
      if event !in events.Values {
        return Err(NotFound);
      }
      if mode.EventMode? && attribute.Some? {
        return Err(BadRequest);
      }
      if mode.BlockMode? && attribute.Some? {
        var target := ValidateTarget(Snapshot(), event, attribute.value);
        if target.Err? {
          return Err(target.error);
        }
      }
      var valid := ValidateShown(Snapshot(), event, shown);
      if valid.Err? {
        return Err(valid.error);
      }
      var row := TicketRow(event, mode, attribute, set a | a in shown);
      if mode.BlockMode? && attribute.None? {
        return Err(Internal);
      }
      if TicketClashes(Snapshot(), k, row, shown) {
        return Err(Conflict);
      }
      if !TicketFits(Snapshot(), row) {
        return Err(Internal);
      }
      tickets := tickets[k := row];
      CreateTicketKeeps(fmt, before, event, mode, attribute, shown, k);
      return Ok(());
    }

    method UpdateTicket(event: Id, k: Id, shown: seq<IdText>) returns (r: Result<()>)
      requires Valid()
      modifies this`tickets
      ensures Answers(old(Snapshot()), CatalogTables.UpdateTicket(old(Snapshot()), event, k, shown), Snapshot(), r)
      ensures Valid()
    {
      hide Sound;
      ghost var before := Snapshot();
      if k !in tickets || tickets[k].event != event {
        return Err(NotFound);
      }
      var valid := ValidateShown(Snapshot(), event, shown);
      if valid.Err? {
        return Err(valid.error);
      }
      if !Distinct(shown) {
        return Err(Internal);
      }
      tickets := tickets[k := tickets[k].(shown := set a | a in shown)];
      UpdateTicketKeeps(fmt, before, event, k, shown);
      return Ok(());
    }

    method RemoveTicket(event: Id, k: Id) returns (r: Result<()>)
      requires Valid()
      modifies this`tickets
      ensures Answers(old(Snapshot()), CatalogTables.RemoveTicket(old(Snapshot()), event, k), Snapshot(), r)
      ensures Valid()
    {
      hide Sound;
      CallKeeps(fmt, Snapshot(), TicketRemove(event, k));
      if k !in tickets || tickets[k].event != event {
        return Err(NotFound);
      }
      tickets := tickets - {k};
      return Ok(());
    }

    // Block trees

    /** The admin's reader: no root block, no tree. */
    method FindAll(event: Id, a: Id) returns (r: Result<Option<Node>>, ghost order: seq<Id>, ghost repr: set<Node>)
      requires Valid()
      ensures fresh(repr)
      ensures if !AttributeOf(Snapshot(), event, a) then r == Err(NotFound)
        else r.Ok? && ShowsTree(r.value, RowsOf(Snapshot(), a), order, repr)
      ensures forall node :: node in repr ==> node.id in blocks && node.row == blocks[node.id]
    {
      repr, order := {}, [];
      if a !in attributes || attributes[a].event != event {
        return Err(NotFound), order, repr;
      }
      ghost var tb := Snapshot();
      var rows := RowsOf(Snapshot(), a);
      RootsHaveNoParent(tb, rows);
      var found := FindMany(rows);
      order := found;
      var nodes;
      nodes, repr := MakeNodes(rows, found, None);
      var root := BuildTree(nodes, repr, rows, found);
      return Ok(root), order, repr;
    }

    /** The public reader, which counts the holders of every block but the root; `values` are the stored values. */
    method GetBlockTree(slug: string, a: Id, values: map<RowKey, Value>)
      returns (r: Result<Node>, ghost order: seq<Id>, ghost repr: set<Node>)
      requires Valid()
      ensures fresh(repr) && Enumerates(PublicRows(Snapshot(), slug, a), order)
      ensures LastRoot(PublicRows(Snapshot(), slug, a), order).None? ==> r == Err(NotFound)
      ensures LastRoot(PublicRows(Snapshot(), slug, a), order).Some? ==>
        r.Ok? && ShowsTree(Some(r.value), PublicRows(Snapshot(), slug, a), order, repr)
      ensures forall node :: node in repr ==>
        && node.id in blocks && node.row == blocks[node.id]
        && node.count == if blocks[node.id].isRoot then None else Some(CountHolders(values, node.id))
    {
      ghost var tb := Snapshot();
      var rows := PublicRows(Snapshot(), slug, a);
      RootsHaveNoParent(tb, rows);
      var found := FindMany(rows);
      order := found;
      var nodes;
      nodes, repr := MakeNodes(rows, found, Some(values));
      var root := BuildTree(nodes, repr, rows, found);
      if root.None? {
        return Err(NotFound), order, repr;
      }
      return Ok(root.value), order, repr;
    }
  }

  lemma RootsHaveNoParent(tb: Tables, rows: Table)
    requires BlocksOk(tb) && forall b :: b in rows ==> b in tb.blocks && rows[b] == tb.blocks[b]
    ensures forall b :: b in rows && rows[b].isRoot ==> rows[b].parent.None?
  {
    forall b | b in rows && rows[b].isRoot ensures rows[b].parent.None? {
      assert BlockOk(tb, b);
    }
  }

  /** The public reader shows an attribute's blocks exactly when the slug is that of its event or of none. */
  lemma PublicRowsExactly(tb: Tables, slug: string, a: Id)
    requires BlocksOk(tb) && IsBlockAttribute(tb, a)
    ensures PublicRows(tb, slug, a) == RowsOf(tb, a) <==>
        slug !in tb.events || tb.events[slug] == tb.attributes[a].event
    ensures slug in tb.events && tb.events[slug] != tb.attributes[a].event ==> PublicRows(tb, slug, a) == map[]
  {
    var b :| IsRootOf(tb.blocks, a, b);
    assert b in RowsOf(tb, a);
    if slug !in tb.events || tb.events[slug] == tb.attributes[a].event {
      assert PublicRows(tb, slug, a) == RowsOf(tb, a);
    }
  }

  /** Below one root, the rows of a block attribute make one tree, and both readers see the same rows. */
  lemma ReadersAgree(tb: Tables, event: Id, slug: string, a: Id, o1: seq<Id>, o2: seq<Id>)
    requires BlocksOk(tb) && AttributeOf(tb, event, a) && (slug in tb.events ==> tb.events[slug] == event)
    requires Enumerates(RowsOf(tb, a), o1) && Enumerates(PublicRows(tb, slug, a), o2)
    ensures PublicRows(tb, slug, a) == RowsOf(tb, a)
    ensures LastRoot(RowsOf(tb, a), o1) == LastRoot(PublicRows(tb, slug, a), o2)
    ensures IsBlockAttribute(tb, a) <==> LastRoot(RowsOf(tb, a), o1).Some?
    ensures IsBlockAttribute(tb, a) ==>
      var root := LastRoot(RowsOf(tb, a), o1).value;
      && IsTop(RowsOf(tb, a), root)
      && (NoTies(RowsOf(tb, a), root) ==> TreeOf(RowsOf(tb, a), o1, root) == TreeOf(PublicRows(tb, slug, a), o2, root))
  {
    var t := RowsOf(tb, a);
    assert PublicRows(tb, slug, a) == t;
    TheRoot(tb, a, o1);
    TheRoot(tb, a, o2);
    if IsBlockAttribute(tb, a) {
      TreeIgnoresRowOrderExactly(t, LastRoot(t, o1).value);
    }
  }

  lemma TheRoot(tb: Tables, a: Id, order: seq<Id>)
    requires BlocksOk(tb) && Enumerates(RowsOf(tb, a), order)
    ensures IsBlockAttribute(tb, a) <==> LastRoot(RowsOf(tb, a), order).Some?
    ensures IsBlockAttribute(tb, a) ==>
      IsRootOf(tb.blocks, a, LastRoot(RowsOf(tb, a), order).value) &&
          IsTop(RowsOf(tb, a), LastRoot(RowsOf(tb, a), order).value)
  {
    var t := RowsOf(tb, a);
    EnumeratesAll(t, order);
    RootsHaveNoParent(tb, t);
    if IsBlockAttribute(tb, a) {
      var b :| IsRootOf(tb.blocks, a, b);
      assert b in t && b in order;
    } else {
      NoBlocksYet(tb, a);
    }
  }
}
