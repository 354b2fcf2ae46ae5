/** What every run of attribute, block and ticket calls keeps. */
module CatalogRuns {
  import opened Wrappers
  import opened Text
  import opened Values
  import opened Normalizer
  import opened Store
  import opened BlockTree
  import opened CatalogTables

  predicate IsBlockAttribute(tb: Tables, a: Id) {
    a in tb.attributes && tb.attributes[a].kind.BlockType?
  }

  /** A block belongs to a block attribute; it has no parent if it is a root, else one of the same attribute. */
  predicate BlockOk(tb: Tables, b: Id)
    requires b in tb.blocks
  {
    var row := tb.blocks[b];
    && row.attribute.Some?
    && IsBlockAttribute(tb, row.attribute.value)
    && (row.isRoot <==> row.parent.None?)
    && (row.parent.Some? ==> BlockOf(tb, row.attribute.value, row.parent.value))
  }

  predicate IsRootOf(t: Table, a: Id, b: Id) {
    b in t && t[b].attribute == Some(a) && t[b].isRoot
  }

  ghost predicate OneRoot(t: Table, a: Id) {
    && (exists b :: IsRootOf(t, a, b))
    && forall b, c :: IsRootOf(t, a, b) && IsRootOf(t, a, c) ==> b == c
  }

  /** A block ticket points at a block attribute of its event, an event ticket at none. */
  predicate TicketOk(tb: Tables, k: Id)
    requires k in tb.tickets
  {
    var row := tb.tickets[k];
    && HasEvent(tb, row.event)
    && (row.mode.BlockMode? <==> row.attribute.Some?)
    && (row.attribute.Some? ==>
        IsBlockAttribute(tb, row.attribute.value) && AttributeOf(tb, row.event, row.attribute.value))
    && forall a :: a in row.shown ==> AttributeOf(tb, row.event, a)
  }

  predicate SameTicketPlace(x: TicketRow, y: TicketRow) {
    (x.attribute.Some? && x.attribute == y.attribute) || (x.mode.EventMode? && y.mode.EventMode? && x.event == y.event)
  }

  predicate TicketsApart(tickets: map<Id, TicketRow>) {
    forall j, k :: j in tickets && k in tickets && j != k ==> !SameTicketPlace(tickets[j], tickets[k])
  }

  predicate AttributeOk(fmt: Formats, tb: Tables, a: Id)
    requires a in tb.attributes
  {
    HasEvent(tb, tb.attributes[a].event) &&
        NormalizeConfig(fmt, tb.attributes[a].kind, tb.attributes[a].config) == Ok(tb.attributes[a].config)
  }

  ghost predicate BlocksOk(tb: Tables) {
    && (forall b :: b in tb.blocks ==> BlockOk(tb, b))
    && forall a :: IsBlockAttribute(tb, a) ==> OneRoot(tb.blocks, a)
  }

  ghost predicate Sound(fmt: Formats, tb: Tables) {
    && BlocksOk(tb)
    && (forall a :: a in tb.attributes ==> AttributeOk(fmt, tb, a))
    && (forall k :: k in tb.tickets ==> TicketOk(tb, k))
    && TicketsApart(tb.tickets)
  }

  // Configs

  lemma {:induction false} NonBlankAgain(items: seq<Value>)
    ensures NonBlankStrings(StringArray(NonBlankStrings(items))) == NonBlankStrings(items)
    ensures forall i :: 0 <= i < |NonBlankStrings(items)| ==> Trim(NonBlankStrings(items)[i]) != ""
  {
    if items != [] {
      NonBlankAgain(items[1..]);
      var rest := NonBlankStrings(items[1..]);
      if items[0].Str? && Trim(items[0].s) != "" {
        assert ([items[0].s] + rest)[1..] == rest;
        assert StringArray([items[0].s] + rest)[1..] == StringArray(rest);
      }
    }
  }

  lemma {:induction false} AllNonBlank(parts: seq<string>)
    requires forall i :: 0 <= i < |parts| ==> Trim(parts[i]) != ""
    ensures NonBlankStrings(StringArray(parts)) == parts
  {
    if parts != [] {
      AllNonBlank(parts[1..]);
      assert StringArray(parts)[1..] == StringArray(parts[1..]);
    }
  }

  lemma TrimmedAgain(parts: seq<string>)
    requires forall i :: 0 <= i < |parts| ==> Trim(parts[i]) != ""
    ensures NonBlankStrings(StringArray(TrimAll(parts))) == TrimAll(parts) == TrimAll(TrimAll(parts))
  {
    forall i | 0 <= i < |parts| ensures Trim(TrimAll(parts)[i]) == TrimAll(parts)[i] {
      TrimTwice(parts[i]);
    }
    AllNonBlank(TrimAll(parts));
  }

  lemma ChoiceConfigIsStable(kind: AttributeType, config: Value)
    requires NormalizeChoiceConfig(kind, config).Ok?
    ensures NormalizeChoiceConfig(kind, NormalizeChoiceConfig(kind, config).value)
        == NormalizeChoiceConfig(kind, config)
  {
    NonBlankAgain(FieldOr(config.fields, "options").items);
  }

  lemma MaxSelectionsAgain(config: Value, v: Value)
    requires config.Obj? && StrictPositive(config.fields, "maxSelections").Ok?
    ensures var fields := With(map["maxSelections" := Num(Finite(1.0))], "maxSelections",
        StrictPositive(config.fields, "maxSelections").value);
      && fields.Keys == {"maxSelections"} && IsPositiveInteger(fields["maxSelections"])
      && StrictPositive(fields["participantFields" := v], "maxSelections") == StrictPositive(fields, "maxSelections")
          == Ok(Some(fields["maxSelections"]))
  {
    assert 1.0.Floor == 1;
  }

  lemma BlockConfigIsStable(fmt: Formats, config: Value)
    requires NormalizeBlockConfig(fmt, config).Ok?
    ensures NormalizeBlockConfig(fmt, NormalizeBlockConfig(fmt, config).value) == NormalizeBlockConfig(fmt, config)
  {
    var stored := NormalizeBlockConfig(fmt, config).value;
    if !config.Obj? {
      assert 1.0.Floor == 1;
      assert NormalizeBlockConfig(fmt, stored).value.fields == stored.fields;
    } else {
      MaxSelectionsAgain(config, Null);
      if FieldOr(config.fields, "participantFields").Undefined? {
        assert NormalizeBlockConfig(fmt, stored).value.fields == stored.fields;
      } else {
        ParticipantFieldsAreStable(fmt, config, stored);
      }
    }
  }

  lemma ParticipantFieldsAreStable(fmt: Formats, config: Value, stored: Value)
    requires NormalizeBlockConfig(fmt, config) == Ok(stored) && config.Obj?
    requires !FieldOr(config.fields, "participantFields").Undefined?
    ensures NormalizeBlockConfig(fmt, stored) == Ok(stored)
  {
    var items := FieldOr(config.fields, "participantFields").items;
    MaxSelectionsAgain(config, Arr(StringArray(TrimAll(NonBlankStrings(items)))));
    NonBlankAgain(items);
    TrimmedAgain(NonBlankStrings(items));
    assert StrictStrings(stored.fields, "participantFields") == Some(TrimAll(NonBlankStrings(items)));
    assert NormalizeBlockConfig(fmt, stored).value.fields == stored.fields;
  }

  /** A stored config is returned unchanged when it is sent again. */
  lemma ConfigIsStable(fmt: Formats, kind: AttributeType, config: Value)
    requires NormalizeConfig(fmt, kind, config).Ok?
    ensures var stored := NormalizeConfig(fmt, kind, config).value;
      NormalizeConfig(fmt, kind, stored) == Ok(stored)
  {
    if kind.Select? || kind.MultiSelect? {
      ChoiceConfigIsStable(kind, config);
    } else if kind.BlockType? {
      BlockConfigIsStable(fmt, config);
    }
  }

  /** The options a stored choice config offers: at least one, none blank. */
  lemma StoredOptions(kind: AttributeType, config: Value)
    requires kind.Select? || kind.MultiSelect?
    requires NormalizeChoiceConfig(kind, config) == Ok(config)
    ensures config.Obj? && ConfigStringArray(ConfigObject(config), "options") != []
    ensures forall o :: o in ConfigStringArray(ConfigObject(config), "options") ==> Trim(o) != "" && o != ""
  {
    NonBlankAgain(config.fields["options"].items);
    assert Trim("") == "";
    var options := ConfigStringArray(ConfigObject(config), "options");
    forall o | o in options ensures Trim(o) != "" {
      var i :| 0 <= i < |options| && options[i] == o;
    }
  }

  /** A single item submitted to a multi-select attribute. */
  lemma OneItem(v: Value, o: string)
    requires v == Arr([Str(o)]) || (v == Str(o) && o != "" && ';' !in o)
    ensures !IsMissing(v) && SplitToItems(v) == Some([Str(o)]) && ListItems(v) == [Trim(o)]
  {
    if v.Str? {
      SplitAtFirst(o, ';', "");
      assert StringArray([o]) == [Str(o)];
    } else {
      assert |v.items| == 1;
    }
    assert [Str(o)][1..] == [] && [o][1..] == [];
    assert StringsOf([Str(o)]) == [o];
  }

  lemma OneItemChosen(config: Value, v: Value, o: string)
    requires NormalizeChoiceConfig(MultiSelect, config) == Ok(config)
    requires o in ConfigStringArray(ConfigObject(config), "options")
    requires v == Arr([Str(o)]) || (v == Str(o) && ';' !in o)
    ensures NormalizeMultiSelect(config, v) == Ok(Arr([Str(o)])) <==> Trimmed(o)
  {
    StoredOptions(MultiSelect, config);
    OneItem(v, o);
    TrimIsProjection(o);
    assert StringArray([Trim(o)]) == [Str(Trim(o))];
    if Trimmed(o) {
      var max := ConfigPositiveInteger(ConfigObject(config), "maxSelections", None);
      assert max.Some? ==> max.value >= 1;
      assert NormalizeMultiSelect(config, v) == Ok(Arr(StringArray([o])));
    } else {
      assert Arr([Str(Trim(o))]).items[0] != Arr([Str(o)]).items[0];
    }
  }

  /** A text with a ';' in it is taken apart. */
  lemma SplitItemNotChosen(config: Value, o: string)
    requires ';' in o
    ensures NormalizeMultiSelect(config, Str(o)) != Ok(Arr([Str(o)]))
  {
    SplitHasParts(o, ';');
    StringsOfStringArray(Split(o, ';'));
    assert |Arr([Str(o)]).items| == 1;
  }

  /**
   Of a stored config every option of a select attribute can be chosen. An option of a multi-select attribute can be
   chosen from a list exactly when it has no white space around it, because items are trimmed and options are not;
   from a text separated by ';' exactly when it has no ';' in it either. A block attribute lets one block be picked.
   */
  lemma OptionsAreChosenExactly(fmt: Formats, kind: AttributeType, config: Value, o: string)
    requires NormalizeConfig(fmt, kind, config) == Ok(config)
    ensures kind.BlockType? ==> MaxBlocks(config) >= 1
    ensures kind.Select? || kind.MultiSelect? ==> ConfigStringArray(ConfigObject(config), "options") != []
    ensures (kind.Select? || kind.MultiSelect?) && o in ConfigStringArray(ConfigObject(config), "options") ==>
      if kind.Select? then NormalizeSelect(config, Str(o)) == Ok(Str(o))
      else && (NormalizeMultiSelect(config, Arr([Str(o)])) == Ok(Arr([Str(o)])) <==> Trimmed(o))
           && (NormalizeMultiSelect(config, Str(o)) == Ok(Arr([Str(o)])) <==> Trimmed(o) && ';' !in o)
  {
    if kind.Select? || kind.MultiSelect? {
      StoredOptions(kind, config);
      if kind.MultiSelect? && o in ConfigStringArray(ConfigObject(config), "options") {
        OneItemChosen(config, Arr([Str(o)]), o);
        if ';' in o {
          SplitItemNotChosen(config, o);
        } else {
          OneItemChosen(config, Str(o), o);
        }
      }
    }
  }

  /** No submission at all stores an item with white space around it, so such an option is never chosen. */
  lemma UntrimmedOptionIsNeverChosen(config: Value, v: Value, o: string)
    requires NormalizeMultiSelect(config, v).Ok? && !Trimmed(o)
    ensures !Holds(NormalizeMultiSelect(config, v).value, o)
  {
    if !IsMissing(v) {
      ListItemsShape(v);
      var items := ListItems(v);
      forall i | 0 <= i < |items| ensures StringArray(items)[i] != Str(o) {
      }
    }
  }

  // Cascades

  ghost predicate UnderAny(t: Table, seeds: set<Id>, b: Id) {
    exists s :: s in seeds && Under(t, s, b)
  }

  lemma {:induction false} CascadeFrom(t: Table, seeds: set<Id>, gone: set<Id>)
    requires seeds <= gone && forall g :: g in gone ==> UnderAny(t, seeds, g)
    ensures forall b :: b in Cascade(t, gone) <==> b in t && !UnderAny(t, seeds, b)
    decreases t.Keys - gone
  {
    var more := Orphans(t, gone);
    if more == {} {
      forall b | b in t && b !in gone ensures !UnderAny(t, seeds, b) {
        StaysOutside(t, seeds, gone, b);
      }
    } else {
      forall g | g in more ensures UnderAny(t, seeds, g) {
        OrphanUnder(t, seeds, g);
      }
      CascadeFrom(t, seeds, gone + more);
    }
  }

  lemma OrphanUnder(t: Table, seeds: set<Id>, g: Id)
    requires g in t && t[g].parent.Some? && UnderAny(t, seeds, t[g].parent.value)
    ensures UnderAny(t, seeds, g)
  {
    var s :| s in seeds && Under(t, s, t[g].parent.value);
    StillUnder(t, s, t[g].parent.value, g);
  }

  lemma StaysOutside(t: Table, seeds: set<Id>, gone: set<Id>, b: Id)
    requires seeds <= gone && b !in gone && Orphans(t, gone) == {}
    ensures !UnderAny(t, seeds, b)
  {
    if UnderAny(t, seeds, b) {
      var s :| s in seeds && Under(t, s, b);
      var k: nat :| Up(t, b, k) == Some(s);
      NeverInside(t, gone, b, k);
    }
  }

  lemma {:induction false} NeverInside(t: Table, gone: set<Id>, b: Id, k: nat)
    requires b !in gone && Orphans(t, gone) == {}
    ensures Up(t, b, k).Some? ==> Up(t, b, k).value !in gone
    decreases k
  {
    if k > 0 && b in t && t[b].parent.Some? {
      assert b !in Orphans(t, gone);
      NeverInside(t, gone, t[b].parent.value, k - 1);
    }
  }

  lemma {:induction false} CascadeKeepsRows(t: Table, gone: set<Id>)
    ensures forall b :: b in Cascade(t, gone) ==> b in t && Cascade(t, gone)[b] == t[b]
    decreases t.Keys - gone
  {
    if Orphans(t, gone) != {} {
      CascadeKeepsRows(t, gone + Orphans(t, gone));
    }
  }

  /** Deleting blocks removes exactly them and what is under them. */
  lemma CascadeRemovesWhatIsUnder(t: Table, seeds: set<Id>)
    ensures forall b :: b in Cascade(t, seeds) <==> b in t && !UnderAny(t, seeds, b)
    ensures forall b :: b in Cascade(t, seeds) ==> Cascade(t, seeds)[b] == t[b]
  {
    forall g | g in seeds ensures UnderAny(t, seeds, g) {
      assert Up(t, g, 0) == Some(g);
    }
    CascadeFrom(t, seeds, seeds);
    CascadeKeepsRows(t, seeds);
  }

  /** What is under a block of an attribute belongs to that attribute. */
  lemma {:induction false} UnderSameAttribute(tb: Tables, a: Id, s: Id, b: Id, k: nat)
    requires forall c :: c in tb.blocks ==> BlockOk(tb, c)
    requires BlockOf(tb, a, s) && Up(tb.blocks, b, k) == Some(s)
    ensures BlockOf(tb, a, b)
    decreases k
  {
    if k > 0 {
      assert BlockOk(tb, b);
      UnderSameAttribute(tb, a, s, tb.blocks[b].parent.value, k - 1);
    }
  }

  /** A surviving block's parent survives. */
  lemma ParentSurvives(t: Table, seeds: set<Id>, b: Id)
    requires b in t && b in Cascade(t, seeds) && t[b].parent.Some? && t[b].parent.value in t
    ensures t[b].parent.value in Cascade(t, seeds)
  {
    CascadeRemovesWhatIsUnder(t, seeds);
    if UnderAny(t, seeds, t[b].parent.value) {
      OrphanUnder(t, seeds, b);
    }
  }

  // One call

  lemma AddBlockKeeps(tb: Tables, b: Id, row: BlockRow)
    requires BlocksOk(tb) && b !in tb.blocks && !row.isRoot && row.attribute.Some?
    requires IsBlockAttribute(tb, row.attribute.value)
    requires row.parent.Some? && BlockOf(tb, row.attribute.value, row.parent.value)
    ensures BlocksOk(tb.(blocks := tb.blocks[b := row]))
  {
    var tb' := tb.(blocks := tb.blocks[b := row]);
    forall c | c in tb'.blocks ensures BlockOk(tb', c) {
      if c != b {
        assert BlockOk(tb, c);
      }
    }
    forall a | IsBlockAttribute(tb', a) ensures OneRoot(tb'.blocks, a) {
      SameRoots(tb.blocks, tb'.blocks, a);
    }
  }

  lemma SameRoots(t: Table, t': Table, a: Id)
    requires OneRoot(t, a) && forall b :: IsRootOf(t', a, b) <==> IsRootOf(t, a, b)
    ensures OneRoot(t', a)
  {
    var b :| IsRootOf(t, a, b);
    assert IsRootOf(t', a, b);
  }

  lemma ReplaceBlockKeeps(tb: Tables, b: Id, row: BlockRow)
    requires BlocksOk(tb) && b in tb.blocks && !tb.blocks[b].isRoot && !row.isRoot
    requires row.attribute == tb.blocks[b].attribute
    requires row.parent.Some? && BlockOf(tb, row.attribute.value, row.parent.value)
    ensures BlocksOk(tb.(blocks := tb.blocks[b := row]))
  {
    var tb' := tb.(blocks := tb.blocks[b := row]);
    forall c | c in tb'.blocks ensures BlockOk(tb', c) {
      assert BlockOk(tb, c);
    }
    forall a | IsBlockAttribute(tb', a) ensures OneRoot(tb'.blocks, a) {
      SameRoots(tb.blocks, tb'.blocks, a);
    }
  }

  lemma RemoveBlockKeeps(tb: Tables, b: Id)
    requires BlocksOk(tb) && b in tb.blocks && !tb.blocks[b].isRoot
    ensures BlocksOk(tb.(blocks := Cascade(tb.blocks, {b})))
  {
    var t := tb.blocks;
    var tb' := tb.(blocks := Cascade(t, {b}));
    CascadeRemovesWhatIsUnder(t, {b});
    forall c | c in tb'.blocks ensures BlockOk(tb', c) {
      assert BlockOk(tb, c);
      if t[c].parent.Some? {
        ParentSurvives(t, {b}, c);
      }
    }
    forall a | IsBlockAttribute(tb', a) ensures OneRoot(tb'.blocks, a) {
      forall r | IsRootOf(t, a, r) ensures r in tb'.blocks {
        RootNotUnder(tb, r, b);
      }
      SameRoots(t, tb'.blocks, a);
    }
  }

  lemma RootNotUnder(tb: Tables, r: Id, b: Id)
    requires r in tb.blocks && BlockOk(tb, r) && tb.blocks[r].isRoot && r != b
    ensures !Under(tb.blocks, b, r)
  {
    forall k: nat ensures Up(tb.blocks, r, k) != Some(b) {
    }
  }

  /** Removing all blocks of an attribute leaves the other attributes' blocks as they were. */
  lemma BlocksDropped(tb: Tables, a: Id, t': Table)
    requires BlocksOk(tb) && t' == Cascade(tb.blocks, BlocksOfAttribute(tb.blocks, a))
    ensures forall b :: b in t' <==> b in tb.blocks && !BlockOf(tb, a, b)
    ensures forall b :: b in t' ==> t'[b] == tb.blocks[b]
  {
    hide Cascade;
    var t := tb.blocks;
    var seeds := BlocksOfAttribute(t, a);
    CascadeRemovesWhatIsUnder(t, seeds);
    forall b | b in t ensures b in t' <==> !BlockOf(tb, a, b) {
      if BlockOf(tb, a, b) {
        assert Up(t, b, 0) == Some(b);
        assert b in seeds && Under(t, b, b);
      } else if UnderAny(t, seeds, b) {
        var s :| s in seeds && Under(t, s, b);
        var k: nat :| Up(t, b, k) == Some(s);
        UnderSameAttribute(tb, a, s, b, k);
      }
    }
  }

  lemma DropBlocksKeeps(tb: Tables, a: Id, tb': Tables)
    requires BlocksOk(tb) && tb'.blocks == Cascade(tb.blocks, BlocksOfAttribute(tb.blocks, a))
    requires !IsBlockAttribute(tb', a)
    requires forall c :: c != a ==> (IsBlockAttribute(tb', c) <==> IsBlockAttribute(tb, c))
    ensures BlocksOk(tb') && forall b :: b in tb'.blocks <==> b in tb.blocks && !BlockOf(tb, a, b)
  {
    hide Cascade;
    BlocksDropped(tb, a, tb'.blocks);
    forall c | c in tb'.blocks ensures BlockOk(tb', c) {
      assert BlockOk(tb, c);
    }
    forall c | IsBlockAttribute(tb', c) ensures OneRoot(tb'.blocks, c) {
      SameRoots(tb.blocks, tb'.blocks, c);
    }
  }

  lemma NewRootKeeps(tb: Tables, a: Id, tb': Tables, root: Id)
    requires BlocksOk(tb) && !IsBlockAttribute(tb, a) && IsBlockAttribute(tb', a) && root !in tb.blocks
    requires forall c :: c != a ==> (IsBlockAttribute(tb', c) <==> IsBlockAttribute(tb, c))
    requires tb'.blocks.Keys == tb.blocks.Keys + {root} && forall b :: b in tb.blocks ==> tb'.blocks[b] == tb.blocks[b]
    requires tb'.blocks[root].attribute == Some(a) && tb'.blocks[root].isRoot && tb'.blocks[root].parent.None?
    ensures BlocksOk(tb')
  {
    NoBlocksYet(tb, a);
    forall b | b in tb'.blocks ensures BlockOk(tb', b) {
      if b != root {
        assert BlockOk(tb, b);
      }
    }
    forall c | IsBlockAttribute(tb', c) ensures OneRoot(tb'.blocks, c) {
      if c == a {
        assert IsRootOf(tb'.blocks, a, root);
        assert forall b :: IsRootOf(tb'.blocks, a, b) ==> b == root;
      } else {
        SameRoots(tb.blocks, tb'.blocks, c);
      }
    }
  }

  lemma NoBlocksYet(tb: Tables, a: Id)
    requires BlocksOk(tb) && !IsBlockAttribute(tb, a)
    ensures forall b :: b in tb.blocks ==> !BlockOf(tb, a, b)
  {
    forall b | b in tb.blocks ensures !BlockOf(tb, a, b) {
      assert BlockOk(tb, b);
    }
  }

  lemma SameShapeKeeps(tb: Tables, tb': Tables)
    requires BlocksOk(tb) && tb'.blocks.Keys == tb.blocks.Keys
    requires forall c :: IsBlockAttribute(tb', c) <==> IsBlockAttribute(tb, c)
    requires forall b :: b in tb.blocks ==> tb'.blocks[b].(name := "") == tb.blocks[b].(name := "")
    ensures BlocksOk(tb')
  {
    forall b ensures b in tb.blocks ==>
        tb'.blocks[b].attribute == tb.blocks[b].attribute && tb'.blocks[b].parent == tb.blocks[b].parent &&
        tb'.blocks[b].isRoot == tb.blocks[b].isRoot {
      if b in tb.blocks {
        var x, y := tb'.blocks[b].(name := ""), tb.blocks[b].(name := "");
        assert x.attribute == y.attribute && x.parent == y.parent && x.isRoot == y.isRoot;
      }
    }
    forall b | b in tb'.blocks ensures BlockOk(tb', b) {
      assert BlockOk(tb, b);
    }
    forall c | IsBlockAttribute(tb', c) ensures OneRoot(tb'.blocks, c) {
      SameRoots(tb.blocks, tb'.blocks, c);
    }
  }

  /** Tickets stay sound as long as their attributes do. */
  lemma TicketsStay(tb: Tables, tb': Tables)
    requires forall k :: k in tb.tickets ==> TicketOk(tb, k)
    requires tb'.tickets == tb.tickets && tb'.events == tb.events
    requires forall a :: a in tb.attributes ==> a in tb'.attributes && tb'.attributes[a].event == tb.attributes[a].event
    requires forall a :: IsBlockAttribute(tb, a) && HasTicket(tb, a) ==> IsBlockAttribute(tb', a)
    ensures forall k :: k in tb'.tickets ==> TicketOk(tb', k)
  {
    forall k | k in tb'.tickets ensures TicketOk(tb', k) {
      assert TicketOk(tb, k);
      assert tb.tickets[k].attribute.Some? ==> HasTicket(tb, tb.tickets[k].attribute.value);
    }
  }

  lemma CreateTxBlocks(fmt: Formats, tb: Tables, event: Id, attribute: NewAttribute, a: Id, root: Id, now: int)
    requires BlocksOk(tb) && CreateTx(fmt, tb, event, attribute, a, root, now).Ok?
    ensures BlocksOk(CreateTx(fmt, tb, event, attribute, a, root, now).value)
  {
    var tb' := CreateTx(fmt, tb, event, attribute, a, root, now).value;
    var row := AttributeRow(event, attribute.kind, attribute.name,
        NormalizeConfig(fmt, attribute.kind, attribute.config).value);
    if attribute.kind.BlockType? {
      NowBlocks(tb, a, row, root, now, tb');
    } else {
      SameShapeKeeps(tb, tb');
    }
  }

  lemma CreateTxKeeps(fmt: Formats, tb: Tables, event: Id, attribute: NewAttribute, a: Id, root: Id, now: int)
    requires Sound(fmt, tb) && HasEvent(tb, event) && CreateTx(fmt, tb, event, attribute, a, root, now).Ok?
    ensures Sound(fmt, CreateTx(fmt, tb, event, attribute, a, root, now).value)
  {
    hide NormalizeConfig;
    hide BlocksOk;
    var tb' := CreateTx(fmt, tb, event, attribute, a, root, now).value;
    CreateTxBlocks(fmt, tb, event, attribute, a, root, now);
    ConfigIsStable(fmt, attribute.kind, attribute.config);
    AttributesStay(fmt, tb, a, tb');
    TicketsStay(tb, tb');
  }

  lemma AttributesStay(fmt: Formats, tb: Tables, a: Id, tb': Tables)
    requires forall c :: c in tb.attributes ==> AttributeOk(fmt, tb, c)
    requires tb'.events == tb.events && a in tb'.attributes && AttributeOk(fmt, tb', a)
    requires tb'.attributes == tb.attributes[a := tb'.attributes[a]]
    ensures forall c :: c in tb'.attributes ==> AttributeOk(fmt, tb', c)
  {
    forall c | c in tb'.attributes ensures AttributeOk(fmt, tb', c) {
      if c != a {
        assert AttributeOk(fmt, tb, c);
      }
    }
  }

  lemma NoLongerBlocks(tb: Tables, a: Id, row: AttributeRow, tb': Tables)
    requires BlocksOk(tb) && !row.kind.BlockType? && tb'.attributes == tb.attributes[a := row]
    requires tb'.blocks == Cascade(tb.blocks, BlocksOfAttribute(tb.blocks, a))
    ensures BlocksOk(tb')
  {
    DropBlocksKeeps(tb, a, tb');
  }

  lemma NowBlocks(tb: Tables, a: Id, row: AttributeRow, root: Id, now: int, tb': Tables)
    requires BlocksOk(tb) && !IsBlockAttribute(tb, a) && row.kind.BlockType?
    requires EnsureRootBlock(tb.(attributes := tb.attributes[a := row]), row.event, a, row.name, root, now) == Ok(tb')
    ensures BlocksOk(tb')
  {
    NoBlocksYet(tb, a);
    NewRootKeeps(tb, a, tb', root);
  }

  // An attribute update that acts on what it read

  /** No type is sent that is, as to having blocks, like the type that was read and unlike the one stored by now. */
  predicate TypeStands(tb: Tables, a: Id, was: AttributeRow, change: AttributeChange)
    requires a in tb.attributes
  {
    change.kind.Some? && (change.kind.value.BlockType? <==> was.kind.BlockType?) ==>
      (was.kind.BlockType? <==> tb.attributes[a].kind.BlockType?)
  }

  /** The config to be stored is one of the type to be stored with it. */
  predicate ConfigStands(fmt: Formats, tb: Tables, a: Id, was: AttributeRow, change: AttributeChange)
    requires a in tb.attributes && ChangedConfig(fmt, was, change).Ok?
  {
    var row := ChangedRow(tb.attributes[a], change, ChangedConfig(fmt, was, change).value);
    NormalizeConfig(fmt, row.kind, row.config) == Ok(row.config)
  }

  predicate TicketStands(tb: Tables, a: Id, change: AttributeChange) {
    change.kind.Some? && !change.kind.value.BlockType? ==> !HasTicket(tb, a)
  }

  /** Only the attribute's own row and blocks differ. */
  lemma WriteFrame(fmt: Formats, tb: Tables, event: Id, a: Id, was: AttributeRow, change: AttributeChange, root: Id,
                   now: int)
    requires WriteUpdate(fmt, tb, event, a, was, change, root, now).Ok?
    ensures ChangedConfig(fmt, was, change).Ok? && AttributeOf(tb, event, a)
    ensures var tb' := WriteUpdate(fmt, tb, event, a, was, change, root, now).value;
      && tb'.events == tb.events && tb'.tickets == tb.tickets
      && tb'.attributes == tb.attributes[
           a := ChangedRow(tb.attributes[a], change, ChangedConfig(fmt, was, change).value)]
  {
    hide NormalizeConfig;
    hide Cascade;
  }

  lemma RootsGiven(tb: Tables, a: Id, row: AttributeRow, root: Id, now: int, tb': Tables)
    requires BlocksOk(tb) && a in tb.attributes && row.kind.BlockType?
    requires EnsureRootBlock(tb.(attributes := tb.attributes[a := row]), row.event, a, row.name, root, now) == Ok(tb')
    ensures BlocksOk(tb')
  {
    if IsBlockAttribute(tb, a) {
      var b :| IsRootOf(tb.blocks, a, b);
      SameShapeKeeps(tb, tb');
    } else {
      NowBlocks(tb, a, row, root, now, tb');
    }
  }

  /** When the blocks are left alone they are sound exactly when the attribute has blocks before and after, or never. */
  lemma BlocksLeftAlone(tb: Tables, a: Id, row: AttributeRow, tb': Tables)
    requires BlocksOk(tb) && a in tb.attributes && tb'.attributes == tb.attributes[a := row]
    requires tb'.blocks == tb.blocks || exists name :: tb'.blocks == RenameRoots(tb.blocks, a, name)
    ensures BlocksOk(tb') <==> (row.kind.BlockType? <==> IsBlockAttribute(tb, a))
  {
    if row.kind.BlockType? <==> IsBlockAttribute(tb, a) {
      SameShapeKeeps(tb, tb');
    } else if row.kind.BlockType? {
      NoBlocksYet(tb, a);
      assert IsBlockAttribute(tb', a);
      assert !OneRoot(tb'.blocks, a);
    } else {
      var b :| IsRootOf(tb.blocks, a, b);
      assert !BlockOk(tb', b);
    }
  }

  lemma LateUpdateBlocks(fmt: Formats, tb: Tables, event: Id, a: Id, was: AttributeRow, change: AttributeChange,
                         root: Id, now: int)
    requires BlocksOk(tb) && WriteUpdate(fmt, tb, event, a, was, change, root, now).Ok?
    ensures a in tb.attributes
    ensures BlocksOk(WriteUpdate(fmt, tb, event, a, was, change, root, now).value) <==> TypeStands(tb, a, was, change)
  {
    hide BlocksOk;
    hide NormalizeConfig;
    hide Cascade;
    hide RenameRoots;
    hide EnsureRootBlock;
    WriteFrame(fmt, tb, event, a, was, change, root, now);
    var tb' := WriteUpdate(fmt, tb, event, a, was, change, root, now).value;
    var row, kind := tb'.attributes[a], change.kind.GetOr(was.kind);
    if !was.kind.BlockType? && kind.BlockType? {
      RootsGiven(tb, a, row, root, now, tb');
    } else if was.kind.BlockType? && !kind.BlockType? {
      NoLongerBlocks(tb, a, row, tb');
    } else {
      BlocksLeftAlone(tb, a, row, tb');
    }
  }

  lemma LateUpdateTickets(tb: Tables, a: Id, change: AttributeChange, tb': Tables)
    requires (forall k :: k in tb.tickets ==> TicketOk(tb, k)) && a in tb.attributes
    requires tb'.tickets == tb.tickets && tb'.events == tb.events
    requires exists config :: tb'.attributes == tb.attributes[a := ChangedRow(tb.attributes[a], change, config)]
    ensures (forall k :: k in tb'.tickets ==> TicketOk(tb', k)) <==> TicketStands(tb, a, change)
  {
    if TicketStands(tb, a, change) {
      TicketsStay(tb, tb');
    } else {
      var k :| k in tb.tickets && tb.tickets[k].attribute == Some(a);
      assert !TicketOk(tb', k);
    }
  }

  /**
   An update that read `was` at an earlier time keeps sound tables sound exactly when the types agree about blocks,
   the config fits the type and no ticket loses its blocks.
   */
  lemma LateUpdateKeepsExactly(fmt: Formats, tb: Tables, event: Id, a: Id, was: AttributeRow, change: AttributeChange,
                               root: Id, now: int)
    requires Sound(fmt, tb) && WriteUpdate(fmt, tb, event, a, was, change, root, now).Ok?
    ensures a in tb.attributes && ChangedConfig(fmt, was, change).Ok?
    ensures Sound(fmt, WriteUpdate(fmt, tb, event, a, was, change, root, now).value) <==>
        TypeStands(tb, a, was, change) && ConfigStands(fmt, tb, a, was, change) && TicketStands(tb, a, change)
  {
    hide BlocksOk;
    hide NormalizeConfig;
    hide TicketsApart;
    hide WriteUpdate;
    hide TicketOk;
    var tb' := WriteUpdate(fmt, tb, event, a, was, change, root, now).value;
    LateUpdateBlocks(fmt, tb, event, a, was, change, root, now);
    WriteFrame(fmt, tb, event, a, was, change, root, now);
    LateUpdateTickets(tb, a, change, tb');
    assert AttributeOk(fmt, tb, a);
    assert AttributeOk(fmt, tb', a) <==> ConfigStands(fmt, tb, a, was, change);
    if AttributeOk(fmt, tb', a) {
      AttributesStay(fmt, tb, a, tb');
    }
  }

  /** As long as the type is still the one that was read, only a new ticket can get in the way. */
  lemma SameTypeStands(fmt: Formats, tb: Tables, a: Id, was: AttributeRow, change: AttributeChange)
    requires a in tb.attributes && tb.attributes[a].kind == was.kind && ChangedConfig(fmt, was, change).Ok?
    requires AttributeOk(fmt, tb, a)
    ensures TypeStands(tb, a, was, change) && ConfigStands(fmt, tb, a, was, change)
  {
    hide NormalizeConfig;
    if ChangedConfig(fmt, was, change).value.Some? {
      ConfigIsStable(fmt, change.kind.GetOr(was.kind), change.config);
    }
  }

  lemma UpdateTxKeeps(fmt: Formats, tb: Tables, event: Id, a: Id, change: AttributeChange, root: Id, now: int)
    requires Sound(fmt, tb) && UpdateTx(fmt, tb, event, a, change, root, now).Ok?
    ensures Sound(fmt, UpdateTx(fmt, tb, event, a, change, root, now).value)
  {
    hide WriteUpdate;
    var was := tb.attributes[a];
    LateUpdateKeepsExactly(fmt, tb, event, a, was, change, root, now);
    SameTypeStands(fmt, tb, a, was, change);
    TicketOfBlocks(tb, a);
  }

  lemma TicketOfBlocks(tb: Tables, a: Id)
    requires forall k :: k in tb.tickets ==> TicketOk(tb, k)
    ensures HasTicket(tb, a) ==> IsBlockAttribute(tb, a)
  {
    if HasTicket(tb, a) {
      var k :| k in tb.tickets && tb.tickets[k].attribute == Some(a);
      assert TicketOk(tb, k);
    }
  }

  /**
   Two updates that both read an attribute without blocks, of which one makes it a block attribute: if the other
   sends a type without blocks and would succeed alone, it also succeeds after the first, and the blocks stay.
   */
  lemma CrossedUpdatesBreak(fmt: Formats, tb: Tables, event: Id, a: Id, first: AttributeChange, second: AttributeChange,
                            root: Id, now: int, root': Id, now': int)
    requires Sound(fmt, tb) && a in tb.attributes && !IsBlockAttribute(tb, a)
    requires first.kind == Some(BlockType) && UpdateAttribute(fmt, tb, event, a, first, root, now).Ok?
    requires second.kind.Some? && !second.kind.value.BlockType?
    requires UpdateAttribute(fmt, tb, event, a, second, root', now').Ok?
    ensures var between := UpdateAttribute(fmt, tb, event, a, first, root, now).value;
      var after := WriteUpdate(fmt, between, event, a, tb.attributes[a], second, root', now');
      after.Ok? && !Sound(fmt, after.value)
  {
    hide Sound;
    hide NormalizeConfig;
    var was := tb.attributes[a];
    var between := UpdateAttribute(fmt, tb, event, a, first, root, now).value;
    UpdateTxKeeps(fmt, tb, event, a, first, root, now);
    WriteFrame(fmt, tb, event, a, was, first, root, now);
    LateUpdateKeepsExactly(fmt, between, event, a, was, second, root', now');
  }

  lemma {:induction false} ApplyItemsKeeps(fmt: Formats, tb: Tables, event: Id, items: seq<Item>, now: int)
    requires Sound(fmt, tb) && HasEvent(tb, event) && ApplyItems(fmt, tb, event, items, now).Ok?
    ensures Sound(fmt, ApplyItems(fmt, tb, event, items, now).value)
    decreases items
  {
    if items != [] {
      match items[0] {
        case CreateItem(attribute, a, root) => CreateTxKeeps(fmt, tb, event, attribute, a, root, now);
        case UpdateItem(a, change, root) => {
          UpdateTxKeeps(fmt, tb, event, a, change, root, now);
          WriteFrame(fmt, tb, event, a, tb.attributes[a], change, root, now);
        }
      }
      ApplyItemsKeeps(fmt, ApplyItem(fmt, tb, event, items[0], now).value, event, items[1..], now);
    }
  }

  lemma DropTicketsKeeps(tb: Tables, a: Id, tb': Tables)
    requires forall k :: k in tb.tickets ==> TicketOk(tb, k)
    requires TicketsApart(tb.tickets) && tb'.tickets == DropTickets(tb.tickets, a) && tb'.events == tb.events
    requires tb'.attributes == tb.attributes - {a}
    ensures TicketsApart(tb'.tickets) && forall k :: k in tb'.tickets ==> TicketOk(tb', k)
  {
    forall k | k in tb'.tickets ensures TicketOk(tb', k) {
      assert TicketOk(tb, k);
    }
    forall j, k | j in tb'.tickets && k in tb'.tickets && j != k
      ensures !SameTicketPlace(tb'.tickets[j], tb'.tickets[k])
    {
      assert !SameTicketPlace(tb.tickets[j], tb.tickets[k]);
    }
  }

  lemma RemoveAttributeKeeps(fmt: Formats, tb: Tables, event: Id, a: Id)
    requires Sound(fmt, tb) && RemoveAttribute(tb, event, a).Ok?
    ensures Sound(fmt, RemoveAttribute(tb, event, a).value)
  {
    var tb' := RemoveAttribute(tb, event, a).value;
    DropBlocksKeeps(tb, a, tb');
    DropTicketsKeeps(tb, a, tb');
    forall c | c in tb'.attributes ensures AttributeOk(fmt, tb', c) {
      assert AttributeOk(fmt, tb, c);
    }
  }

  predicate TargetsStand(tb: Tables, event: Id, attribute: Option<Id>, shown: seq<IdText>) {
    && (attribute.Some? ==> IsBlockAttribute(tb, attribute.value) && AttributeOf(tb, event, attribute.value))
    && forall i :: 0 <= i < |shown| ==> AttributeOf(tb, event, shown[i])
  }

  /**
   A ticket that was validated on tables of an earlier time: its insertion keeps the tables sound exactly when the
   target is still a block attribute of the event and the attributes shown are still its own.
   */
  lemma LateTicketKeepsExactly(fmt: Formats, tb: Tables, event: Id, mode: TicketMode, attribute: Option<Id>,
                               shown: seq<IdText>, k: Id)
    requires Sound(fmt, tb) && InsertTicket(tb, event, mode, attribute, shown, k).Ok?
    ensures Sound(fmt, InsertTicket(tb, event, mode, attribute, shown, k).value) <==>
        TargetsStand(tb, event, attribute, shown)
  {
    var tb' := InsertTicket(tb, event, mode, attribute, shown, k).value;
    SameBlocksSound(fmt, tb, tb');
    assert forall i :: 0 <= i < |shown| ==> shown[i] in tb'.tickets[k].shown;
    assert TicketOk(tb', k) <==> TargetsStand(tb, event, attribute, shown);
    forall j | j in tb'.tickets && j != k ensures TicketOk(tb', j) {
      assert TicketOk(tb, j);
    }
    forall i, j | i in tb'.tickets && j in tb'.tickets && i != j
      ensures !SameTicketPlace(tb'.tickets[i], tb'.tickets[j])
    {
      if i != k && j != k {
        assert !SameTicketPlace(tb.tickets[i], tb.tickets[j]);
      }
    }
  }

  lemma CreateTicketKeeps(fmt: Formats, tb: Tables, event: Id, mode: TicketMode, attribute: Option<Id>,
                          shown: seq<IdText>, k: Id)
    requires Sound(fmt, tb) && CreateTicket(tb, event, mode, attribute, shown, k).Ok?
    ensures Sound(fmt, CreateTicket(tb, event, mode, attribute, shown, k).value)
  {
    LateTicketKeepsExactly(fmt, tb, event, mode, attribute, shown, k);
  }

  /** A block attribute that gets another type between the validation and the insertion keeps the new ticket. */
  lemma TicketOfChangedAttributeBreaks(fmt: Formats, tb: Tables, event: Id, a: Id, shown: seq<IdText>, k: Id,
                                       change: AttributeChange, root: Id, now: int)
    requires Sound(fmt, tb) && CreateTicket(tb, event, BlockMode, Some(a), shown, k).Ok?
    requires change.kind.Some? && !change.kind.value.BlockType?
    requires UpdateAttribute(fmt, tb, event, a, change, root, now).Ok?
    ensures var between := UpdateAttribute(fmt, tb, event, a, change, root, now).value;
      InsertTicket(between, event, BlockMode, Some(a), shown, k).Ok? &&
      !Sound(fmt, InsertTicket(between, event, BlockMode, Some(a), shown, k).value)
  {
    var between := UpdateAttribute(fmt, tb, event, a, change, root, now).value;
    UpdateTxKeeps(fmt, tb, event, a, change, root, now);
    LateTicketKeepsExactly(fmt, between, event, BlockMode, Some(a), shown, k);
  }

  lemma ShownOk(tb: Tables, event: Id, shown: seq<IdText>)
    requires ValidateShown(tb, event, shown).Ok?
    ensures forall a :: a in (set c | c in shown) ==> AttributeOf(tb, event, a)
  {
  }

  lemma SameBlocksSound(fmt: Formats, tb: Tables, tb': Tables)
    requires Sound(fmt, tb) && tb' == tb.(tickets := tb'.tickets)
    ensures BlocksOk(tb') && forall a :: a in tb'.attributes ==> AttributeOk(fmt, tb', a)
  {
    SameShapeKeeps(tb, tb');
    forall a | a in tb'.attributes ensures AttributeOk(fmt, tb', a) {
      assert AttributeOk(fmt, tb, a);
    }
  }

  lemma OtherTicketsKeep(fmt: Formats, tb: Tables, tb': Tables, k: Id)
    requires Sound(fmt, tb) && tb' == tb.(tickets := tb'.tickets) && tb'.tickets.Keys <= tb.tickets.Keys
    requires forall j :: j in tb'.tickets && j != k ==> tb'.tickets[j] == tb.tickets[j]
    requires k in tb'.tickets ==> TicketOk(tb', k) && tb'.tickets[k].(shown := {}) == tb.tickets[k].(shown := {})
    ensures Sound(fmt, tb')
  {
    SameBlocksSound(fmt, tb, tb');
    forall j | j in tb'.tickets ensures TicketOk(tb', j) {
      assert TicketOk(tb, j);
    }
    forall i, j | i in tb'.tickets && j in tb'.tickets && i != j
      ensures !SameTicketPlace(tb'.tickets[i], tb'.tickets[j])
    {
      assert !SameTicketPlace(tb.tickets[i], tb.tickets[j]);
      assert SameTicketPlace(tb'.tickets[i].(shown := {}), tb'.tickets[j].(shown := {})) <==>
          SameTicketPlace(tb.tickets[i].(shown := {}), tb.tickets[j].(shown := {}));
    }
  }

  lemma UpdateTicketKeeps(fmt: Formats, tb: Tables, event: Id, k: Id, shown: seq<IdText>)
    requires Sound(fmt, tb) && UpdateTicket(tb, event, k, shown).Ok?
    ensures Sound(fmt, UpdateTicket(tb, event, k, shown).value)
  {
    ShownOk(tb, event, shown);
    assert TicketOk(tb, k);
    OtherTicketsKeep(fmt, tb, UpdateTicket(tb, event, k, shown).value, k);
  }

  // Every run

  datatype Call =
    | BlockCreate(event: Id, a: Id, block: NewBlock, b: Id, now: int)
    | BlockUpdate(event: Id, a: Id, text: IdText, change: BlockChange)
    | BlockDuplicate(event: Id, a: Id, b: Id, name: Option<string>, copy: Id, now: int)
    | BlockRemove(event: Id, a: Id, b: Id)
    | AttributeCreate(event: Id, attribute: NewAttribute, a: Id, root: Id, now: int)
    | AttributeUpdate(event: Id, a: Id, update: AttributeChange, root: Id, now: int)
    | AttributeRemove(event: Id, a: Id)
    | AttributesBulk(event: Id, items: seq<Item>, now: int)
    | TicketCreate(event: Id, mode: TicketMode, attribute': Option<Id>, shown: seq<IdText>, k: Id)
    | TicketUpdate(event: Id, k: Id, shown: seq<IdText>)
    | TicketRemove(event: Id, k: Id)

  function Answer(fmt: Formats, tb: Tables, call: Call): Result<Tables> {
    match call
    case BlockCreate(event, a, block, b, now) => CreateBlock(tb, event, a, block, b, now)
    case BlockUpdate(event, a, text, change) => UpdateBlock(fmt, tb, event, a, text, change)
    case BlockDuplicate(event, a, b, name, copy, now) => DuplicateBlock(tb, event, a, b, name, copy, now)
    case BlockRemove(event, a, b) => RemoveBlock(tb, event, a, b)
    case AttributeCreate(event, attribute, a, root, now) => CreateAttribute(fmt, tb, event, attribute, a, root, now)
    case AttributeUpdate(event, a, update, root, now) => UpdateAttribute(fmt, tb, event, a, update, root, now)
    case AttributeRemove(event, a) => RemoveAttribute(tb, event, a)
    case AttributesBulk(event, items, now) => BulkUpdateAttributes(fmt, tb, event, items, now)
    case TicketCreate(event, mode, attribute, shown, k) => CreateTicket(tb, event, mode, attribute, shown, k)
    case TicketUpdate(event, k, shown) => UpdateTicket(tb, event, k, shown)
    case TicketRemove(event, k) => RemoveTicket(tb, event, k)
  }

  function After(fmt: Formats, tb: Tables, call: Call): Tables {
    var answer := Answer(fmt, tb, call);
    if answer.Ok? then answer.value else tb
  }

  function Run(fmt: Formats, tb: Tables, calls: seq<Call>): Tables
    decreases calls
  {
    if calls == [] then tb else Run(fmt, After(fmt, tb, calls[0]), calls[1..])
  }

  lemma BlocksChangedKeeps(fmt: Formats, tb: Tables, tb': Tables)
    requires Sound(fmt, tb) && tb' == tb.(blocks := tb'.blocks) && BlocksOk(tb')
    ensures Sound(fmt, tb')
  {
    forall a | a in tb'.attributes ensures AttributeOk(fmt, tb', a) {
      assert AttributeOk(fmt, tb, a);
    }
    TicketsStay(tb, tb');
  }

  lemma CreateBlockKeeps(fmt: Formats, tb: Tables, event: Id, a: Id, block: NewBlock, b: Id, now: int)
    requires Sound(fmt, tb) && CreateBlock(tb, event, a, block, b, now).Ok?
    ensures Sound(fmt, CreateBlock(tb, event, a, block, b, now).value)
  {
    var tb' := CreateBlock(tb, event, a, block, b, now).value;
    assert BlockOk(tb, block.parent);
    AddBlockKeeps(tb, b, tb'.blocks[b]);
    BlocksChangedKeeps(fmt, tb, tb');
  }

  lemma UpdateBlockKeeps(fmt: Formats, tb: Tables, event: Id, a: Id, text: IdText, change: BlockChange)
    requires Sound(fmt, tb) && UpdateBlock(fmt, tb, event, a, text, change).Ok?
    ensures Sound(fmt, UpdateBlock(fmt, tb, event, a, text, change).value)
  {
    var tb' := UpdateBlock(fmt, tb, event, a, text, change).value;
    var b := fmt.uuidValue(text);
    assert BlockOk(tb, b);
    ReplaceBlockKeeps(tb, b, tb'.blocks[b]);
    BlocksChangedKeeps(fmt, tb, tb');
  }

  /** A parent that is the block itself is refused exactly when it is spelled like the block; else a cycle is made. */
  lemma OwnParentIsRefusedExactly(fmt: Formats, tb: Tables, event: Id, a: Id, text: IdText, parent: IdText,
                                  change: BlockChange)
    requires change.parent == ToParent(parent) && fmt.uuidValue(parent) == fmt.uuidValue(text)
    requires Found(tb, event, a, fmt.uuidValue(text)) && !tb.blocks[fmt.uuidValue(text)].isRoot
    ensures UpdateBlock(fmt, tb, event, a, text, change).Err? <==> parent == text
    ensures parent != text ==> OnCycle(UpdateBlock(fmt, tb, event, a, text, change).value.blocks, fmt.uuidValue(text))
  {
    if parent != text {
      var t := UpdateBlock(fmt, tb, event, a, text, change).value.blocks;
      assert Up(t, fmt.uuidValue(text), 0) == Some(fmt.uuidValue(text));
    }
  }

  lemma DuplicateBlockKeeps(fmt: Formats, tb: Tables, event: Id, a: Id, b: Id, name: Option<string>, copy: Id, now: int)
    requires Sound(fmt, tb) && DuplicateBlock(tb, event, a, b, name, copy, now).Ok?
    ensures Sound(fmt, DuplicateBlock(tb, event, a, b, name, copy, now).value)
  {
    var tb' := DuplicateBlock(tb, event, a, b, name, copy, now).value;
    assert BlockOk(tb, b);
    AddBlockKeeps(tb, copy, tb'.blocks[copy]);
    BlocksChangedKeeps(fmt, tb, tb');
  }

  lemma DeleteBlockKeeps(fmt: Formats, tb: Tables, event: Id, a: Id, b: Id)
    requires Sound(fmt, tb) && RemoveBlock(tb, event, a, b).Ok?
    ensures Sound(fmt, RemoveBlock(tb, event, a, b).value)
  {
    RemoveBlockKeeps(tb, b);
    BlocksChangedKeeps(fmt, tb, RemoveBlock(tb, event, a, b).value);
  }

  lemma CallKeeps(fmt: Formats, tb: Tables, call: Call)
    requires Sound(fmt, tb)
    ensures Sound(fmt, After(fmt, tb, call))
  {
    if Answer(fmt, tb, call).Ok? {
      match call
      case AttributeCreate(event, attribute, a, root, now) => CreateTxKeeps(fmt, tb, event, attribute, a, root, now);
      case AttributeUpdate(event, a, update, root, now) => UpdateTxKeeps(fmt, tb, event, a, update, root, now);
      case AttributeRemove(event, a) => RemoveAttributeKeeps(fmt, tb, event, a);
      case AttributesBulk(event, items, now) => ApplyItemsKeeps(fmt, tb, event, items, now);
      case TicketCreate(event, mode, attribute, shown, k) =>
        CreateTicketKeeps(fmt, tb, event, mode, attribute, shown, k);
      case TicketUpdate(event, k, shown) => UpdateTicketKeeps(fmt, tb, event, k, shown);
      case TicketRemove(event, k) => OtherTicketsKeep(fmt, tb, RemoveTicket(tb, event, k).value, k);
      case BlockCreate(event, a, block, b, now) => CreateBlockKeeps(fmt, tb, event, a, block, b, now);
      case BlockUpdate(event, a, text, change) => UpdateBlockKeeps(fmt, tb, event, a, text, change);
      case BlockDuplicate(event, a, b, name, copy, now) => DuplicateBlockKeeps(fmt, tb, event, a, b, name, copy, now);
      case BlockRemove(event, a, b) => DeleteBlockKeeps(fmt, tb, event, a, b);
    }
  }

  lemma {:induction false} RunKeeps(fmt: Formats, tb: Tables, calls: seq<Call>)
    requires Sound(fmt, tb)
    ensures Sound(fmt, Run(fmt, tb, calls))
    decreases calls
  {
    if calls != [] {
      CallKeeps(fmt, tb, calls[0]);
      RunKeeps(fmt, After(fmt, tb, calls[0]), calls[1..]);
    }
  }

  /**
   Whatever calls run from an event without attributes: every block attribute has exactly one root, which alone
   has no parent; no other attribute has blocks; parents and tickets stay within their attribute and event.
   */
  lemma CatalogStaysSound(fmt: Formats, events: map<string, Id>, calls: seq<Call>)
    ensures Sound(fmt, Run(fmt, Tables(events, map[], map[], map[]), calls))
  {
    RunKeeps(fmt, Tables(events, map[], map[], map[]), calls);
  }
}
