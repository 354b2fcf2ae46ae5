/**
 The per-type normalisation every attribute value passes before it is stored,
 and what its results look like.
 */
module Normalizer {
  import opened Wrappers
  import opened Text
  import opened Values

  datatype Attribute = Attribute(event: string, kind: AttributeType, config: Value)

  /** A phone number: an optional '+' and 6 to 20 digits, spaces, dashes, dots or brackets. */
  predicate IsTel(s: string) {
    var body := if s != "" && s[0] == '+' then s[1..] else s;
    && 6 <= |body| <= 20
    && forall i :: 0 <= i < |body| ==>
        '0' <= body[i] <= '9' || IsSpace(body[i]) || body[i] in {'-', '(', ')', '.'}
  }

  function NormalizeSelect(config: Value, v: Value): Result<Value> {
    if IsMissing(v) then Ok(Null)
    else if !v.Str? then Err(BadRequest)
    else
      var options := ConfigStringArray(ConfigObject(config), "options");
      var allowOther := ConfigBoolean(ConfigObject(config), "allowOther");
      if options == [] && !allowOther then Err(BadRequest)
      else if !allowOther && options != [] && v.s !in options then Err(BadRequest)
      else Ok(v)
  }

  function NormalizeMultiSelect(config: Value, v: Value): Result<Value> {
    if IsMissing(v) then Ok(Null)
    else
      var raw := SplitToItems(v);
      if raw.None? || !AllStrings(raw.value) then Err(BadRequest)
      else
        var items := ListItems(v);
        if "" in items then Err(BadRequest)
        else
          var fields := ConfigObject(config);
          var options := ConfigStringArray(fields, "options");
          var allowOther := ConfigBoolean(fields, "allowOther");
          if options == [] && !allowOther then Err(BadRequest)
          else if !allowOther && options != [] && exists i :: 0 <= i < |items| && items[i] !in options
          then Err(BadRequest)
          else
            var max := ConfigPositiveInteger(fields, "maxSelections", None);
            if max.Some? && |items| > max.value then Err(BadRequest)
            else Ok(Arr(StringArray(items)))
  }

  function MaxBlocks(config: Value): nat {
    ConfigPositiveInteger(ConfigObject(config), "maxSelections", Some(1)).GetOr(1)
  }

  /** How many rows of `scope` a query `where id in ids` counts. */
  function CountMatching<T(==)>(ids: seq<T>, scope: set<T>): nat {
    |set id | id in ids && id in scope|
  }

  /** The ids that texts stand for. */
  function UuidValues(fmt: Formats, texts: seq<string>): (ids: seq<string>)
    ensures |ids| == |texts| && forall i :: 0 <= i < |ids| ==> ids[i] == fmt.uuidValue(texts[i])
  {
    seq(|texts|, i requires 0 <= i < |texts| => fmt.uuidValue(texts[i]))
  }

  /** `blocks` are the ids of all blocks of the attribute, the root block included. */
  function NormalizeBlock(fmt: Formats, config: Value, blocks: set<string>, v: Value): Result<Value> {
    if IsMissing(v) then Ok(Null)
    else
      var raw := SplitToItems(v);
      if raw.None? || !AllStrings(raw.value) then Err(BadRequest)
      else
        var ids := ListItems(v);
        if exists i :: 0 <= i < |ids| && !fmt.isUuid(ids[i]) then Err(BadRequest)
        else if ids == [] then Ok(Null)
        else if |ids| > MaxBlocks(config) then Err(BadRequest)
        else if CountMatching(UuidValues(fmt, ids), blocks) != |ids| then Err(BadRequest)
        else Ok(Arr(StringArray(ids)))
  }

  function ParsedNumber(fmt: Formats, v: Value): Number {
    if v.Num? then v.n else if v.Str? then fmt.parseNumber(v.s) else NaN
  }

  function NormalizeNumber(fmt: Formats, v: Value): Result<Value> {
    if IsMissing(v) then Ok(Null)
    else if ParsedNumber(fmt, v).NaN? then Err(BadRequest)
    else Ok(Num(ParsedNumber(fmt, v)))
  }

  function NormalizeDate(fmt: Formats, v: Value): Result<Value> {
    if IsMissing(v) then Ok(Null)
    else
      var text := if v.DateObj? then Some(v.iso) else if v.Str? then Some(v.s) else None;
      if text.None? || !fmt.isDate(text.value) then Err(BadRequest) else Ok(Str(text.value))
  }

  function NormalizeCheckbox(fmt: Formats, v: Value): Result<Value> {
    if IsMissing(v) then Ok(Null)
    else if v.Bool? then Ok(v)
    else if v == Num(Finite(1.0)) then Ok(Bool(true))
    else if v == Num(Finite(0.0)) then Ok(Bool(false))
    else if v.Str? && fmt.lower(v.s) in {"true", "1", "on"} then Ok(Bool(true))
    else if v.Str? && fmt.lower(v.s) in {"false", "0", "off"} then Ok(Bool(false))
    else Err(BadRequest)
  }

  /** The string format an attribute type demands; types without one accept any string. */
  predicate FormatOk(fmt: Formats, kind: AttributeType, s: string) {
    match kind
    case Email => fmt.isEmail(s)
    case Tel => IsTel(s)
    case Color => fmt.isHexColor(s)
    case _ => true
  }

  function NormalizeString(fmt: Formats, kind: AttributeType, v: Value): Result<Value> {
    if IsMissing(v) then Ok(Null)
    else if !v.Str? || !FormatOk(fmt, kind, v.s) then Err(BadRequest)
    else Ok(v)
  }

  function Normalize(fmt: Formats, attribute: Attribute, blocks: set<string>, v: Value): Result<Value> {
    match attribute.kind
    case Select => NormalizeSelect(attribute.config, v)
    case MultiSelect => NormalizeMultiSelect(attribute.config, v)
    case BlockType => NormalizeBlock(fmt, attribute.config, blocks, v)
    case NumberType => NormalizeNumber(fmt, v)
    case DateType => NormalizeDate(fmt, v)
    case DateTime => NormalizeDate(fmt, v)
    case Checkbox => NormalizeCheckbox(fmt, v)
    case _ => NormalizeString(fmt, attribute.kind, v)
  }

  // What a stored value of each type looks like, stated without the normaliser.

  /** A list attribute's stored form: a non-empty array of trimmed strings. */
  predicate IsList(v: Value) {
    v.Arr? && v.items != [] && AllStrings(v.items) &&
    forall i :: 0 <= i < |v.items| ==> Trimmed(v.items[i].s)
  }

  /** An allowed choice of a select or multi-select attribute. */
  predicate Choosable(config: Value, s: string) {
    || ConfigBoolean(ConfigObject(config), "allowOther")
    || s in ConfigStringArray(ConfigObject(config), "options")
  }

  predicate WellFormed(fmt: Formats, attribute: Attribute, blocks: set<string>, v: Value) {
    match attribute.kind
    case Select => v.Str? && v.s != "" && Choosable(attribute.config, v.s)
    case MultiSelect =>
      && IsList(v)
      && (forall i :: 0 <= i < |v.items| ==> v.items[i].s != "" && Choosable(attribute.config, v.items[i].s))
      && var max := ConfigPositiveInteger(ConfigObject(attribute.config), "maxSelections", None);
         max.Some? ==> |v.items| <= max.value
    case BlockType =>
      && IsList(v)
      && (forall i :: 0 <= i < |v.items| ==> fmt.isUuid(v.items[i].s) && fmt.uuidValue(v.items[i].s) in blocks)
      && (forall i, j :: 0 <= i < j < |v.items| ==> fmt.uuidValue(v.items[i].s) != fmt.uuidValue(v.items[j].s))
      && |v.items| <= MaxBlocks(attribute.config)
    case NumberType => v.Num? && !v.n.NaN?
    case DateType => v.Str? && v.s != "" && fmt.isDate(v.s)
    case DateTime => v.Str? && v.s != "" && fmt.isDate(v.s)
    case Checkbox => v.Bool?
    case _ => v.Str? && v.s != "" && FormatOk(fmt, attribute.kind, v.s)
  }

  // Counting matching ids

  lemma DistinctStep<T>(ids: seq<T>)
    requires ids != []
    ensures Distinct(ids) <==> ids[0] !in ids[1..] && Distinct(ids[1..])
    ensures (set id | id in ids) == (set id | id in ids[1..]) + {ids[0]}
  {
    var rest := ids[1..];
    assert ids == [ids[0]] + rest;
    if Distinct(ids) {
      forall i | 0 <= i < |rest| ensures rest[i] != ids[0] {
        assert rest[i] == ids[i + 1];
      }
      forall i, j | 0 <= i < j < |rest| ensures rest[i] != rest[j] {
        assert rest[i] == ids[i + 1] && rest[j] == ids[j + 1];
      }
    }
  }

  lemma {:induction false} DistinctSize<T>(ids: seq<T>)
    ensures |set id | id in ids| <= |ids|
    ensures |set id | id in ids| == |ids| <==> Distinct(ids)
  {
    if ids != [] {
      DistinctStep(ids);
      DistinctSize(ids[1..]);
      var tail := set id | id in ids[1..];
      if ids[0] in tail {
        assert tail + {ids[0]} == tail;
      } else {
        assert |tail + {ids[0]}| == |tail| + 1;
      }
    }
  }

  /** A count equal to the length of the list means: every id is in scope and none repeats. */
  lemma CountMeansAllDistinct<T>(ids: seq<T>, scope: set<T>)
    ensures CountMatching(ids, scope) == |ids|
       <==> Distinct(ids) && forall i :: 0 <= i < |ids| ==> ids[i] in scope
  {
    var all := set id | id in ids;
    var matching := set id | id in ids && id in scope;
    assert matching <= all;
    DistinctSize(ids);
    if |matching| == |ids| {
      SubsetOfSameSize(matching, all);
      assert forall i :: 0 <= i < |ids| ==> ids[i] in all;
    } else if forall i :: 0 <= i < |ids| ==> ids[i] in scope {
      assert matching == all;
    }
  }

  lemma SubsetOfSameSize<T>(small: set<T>, big: set<T>)
    requires small <= big && |small| >= |big|
    ensures small == big
  {
    if small != big {
      var x :| x in big && x !in small;
      SubsetSize(small, big - {x});
    }
  }

  /** Every id is in scope, and none is given under two spellings. */
  predicate NamesEach(fmt: Formats, ids: seq<string>, scope: set<string>) {
    && (forall i :: 0 <= i < |ids| ==> fmt.uuidValue(ids[i]) in scope)
    && forall i, j :: 0 <= i < |ids| && 0 <= j < |ids| && fmt.uuidValue(ids[i]) == fmt.uuidValue(ids[j]) ==>
        ids[i] == ids[j]
  }

  lemma NamedAreDistinct(fmt: Formats, ids: seq<string>, unique: seq<string>, scope: set<string>)
    requires Distinct(unique) && (forall x :: x in unique <==> x in ids) && NamesEach(fmt, ids, scope)
    ensures CountMatching(UuidValues(fmt, unique), scope) == |unique|
  {
    var values := UuidValues(fmt, unique);
    CountMeansAllDistinct(values, scope);
    forall k | 0 <= k < |values| ensures values[k] in scope {
      assert unique[k] in ids;
    }
    forall k, l | 0 <= k < l < |values| ensures values[k] != values[l] {
      assert unique[k] in ids && unique[l] in ids;
    }
  }

  lemma DistinctAreNamed(fmt: Formats, ids: seq<string>, unique: seq<string>, scope: set<string>)
    requires Distinct(unique) && forall x :: x in unique <==> x in ids
    requires CountMatching(UuidValues(fmt, unique), scope) == |unique|
    ensures NamesEach(fmt, ids, scope)
  {
    var values := UuidValues(fmt, unique);
    CountMeansAllDistinct(values, scope);
    hide CountMatching;
    forall i | 0 <= i < |ids| ensures exists k :: 0 <= k < |unique| && unique[k] == ids[i] {
      assert ids[i] in unique;
    }
    forall i | 0 <= i < |ids| ensures fmt.uuidValue(ids[i]) in scope {
      var k :| 0 <= k < |unique| && unique[k] == ids[i];
      assert values[k] in scope;
    }
    forall i, j | 0 <= i < |ids| && 0 <= j < |ids| && fmt.uuidValue(ids[i]) == fmt.uuidValue(ids[j])
      ensures ids[i] == ids[j]
    {
      var k :| 0 <= k < |unique| && unique[k] == ids[i];
      var l :| 0 <= l < |unique| && unique[l] == ids[j];
      assert values[k] == values[l];
    }
  }

  /** The count of rows found for the ids without repetition tells whether each id names its own. */
  lemma DeduplicatedNamesEach(fmt: Formats, ids: seq<string>, unique: seq<string>, scope: set<string>)
    requires Distinct(unique) && forall x :: x in unique <==> x in ids
    ensures CountMatching(UuidValues(fmt, unique), scope) == |unique| <==> NamesEach(fmt, ids, scope)
  {
    hide NamesEach;
    if CountMatching(UuidValues(fmt, unique), scope) == |unique| {
      DistinctAreNamed(fmt, ids, unique, scope);
    } else if NamesEach(fmt, ids, scope) {
      NamedAreDistinct(fmt, ids, unique, scope);
    }
  }

  // The normaliser's range

  /** The items of a list-valued submission, trimmed. */
  function ListItems(v: Value): seq<string>
    requires SplitToItems(v).Some?
  {
    TrimAll(StringsOf(SplitToItems(v).value))
  }

  lemma ListItemsShape(v: Value)
    requires SplitToItems(v).Some? && AllStrings(SplitToItems(v).value)
    ensures var items := ListItems(v);
      && (items == [] <==> v == Arr([]))
      && (forall i :: 0 <= i < |items| ==> Trimmed(items[i]))
      && (v.Arr? ==> |items| == |v.items| && (Arr(StringArray(items)) == v <==>
            forall i :: 0 <= i < |v.items| ==> Trimmed(v.items[i].s)))
  {
    var raw := SplitToItems(v).value;
    var strings := StringsOf(raw);
    StringArrayOfStringsOf(raw);
    var items := ListItems(v);
    forall i | 0 <= i < |items|
      ensures Trimmed(items[i]) && (items[i] == strings[i] <==> Trimmed(strings[i])) && raw[i] == Str(strings[i])
    {
      TrimIsProjection(strings[i]);
    }
    if v.Arr? && forall i :: 0 <= i < |items| ==> Trimmed(v.items[i].s) {
      assert StringArray(items) == v.items;
    }
    if Arr(StringArray(items)) == v {
      forall i | 0 <= i < |v.items| ensures Trimmed(v.items[i].s) {
        assert StringArray(items)[i] == Str(items[i]);
      }
    }
  }

  lemma NormalizedMultiSelect(fmt: Formats, attribute: Attribute, blocks: set<string>, v: Value)
    requires attribute.kind.MultiSelect?
    requires NormalizeMultiSelect(attribute.config, v).Ok?
    ensures var w := NormalizeMultiSelect(attribute.config, v).value;
      if IsMissing(v) then w == Null else WellFormed(fmt, attribute, blocks, w)
  {
    if !IsMissing(v) {
      ListItemsShape(v);
      var items := ListItems(v);
      assert forall i :: 0 <= i < |items| ==> items[i] in items;
    }
  }

  lemma NormalizedBlock(fmt: Formats, attribute: Attribute, blocks: set<string>, v: Value)
    requires attribute.kind.BlockType?
    requires NormalizeBlock(fmt, attribute.config, blocks, v).Ok?
    ensures var w := NormalizeBlock(fmt, attribute.config, blocks, v).value;
      if IsMissing(v) then w == Null else WellFormed(fmt, attribute, blocks, w)
  {
    if !IsMissing(v) {
      ListItemsShape(v);
      CountMeansAllDistinct(UuidValues(fmt, ListItems(v)), blocks);
    }
  }

  /** Every accepted value is null or well formed, and null exactly when nothing was submitted. */
  lemma NormalizedIsWellFormed(fmt: Formats, attribute: Attribute, blocks: set<string>, v: Value)
    requires Normalize(fmt, attribute, blocks, v).Ok?
    ensures var w := Normalize(fmt, attribute, blocks, v).value;
      && (w == Null || WellFormed(fmt, attribute, blocks, w))
      && (w == Null <==> IsMissing(v))
  {
    if attribute.kind.MultiSelect? {
      NormalizedMultiSelect(fmt, attribute, blocks, v);
    } else if attribute.kind.BlockType? {
      NormalizedBlock(fmt, attribute, blocks, v);
    }
  }

  lemma FixedList(w: Value)
    requires IsList(w)
    ensures SplitToItems(w) == Some(w.items) && Arr(StringArray(ListItems(w))) == w
    ensures |ListItems(w)| == |w.items|
    ensures forall i :: 0 <= i < |w.items| ==> w.items[i] == Str(ListItems(w)[i])
  {
    ListItemsShape(w);
    assert StringArray(ListItems(w)) == w.items;
  }

  lemma FixedMultiSelect(fmt: Formats, attribute: Attribute, blocks: set<string>, w: Value)
    requires attribute.kind.MultiSelect? && WellFormed(fmt, attribute, blocks, w)
    ensures NormalizeMultiSelect(attribute.config, w) == Ok(w)
  {
    FixedList(w);
  }

  lemma FixedBlock(fmt: Formats, attribute: Attribute, blocks: set<string>, w: Value)
    requires attribute.kind.BlockType? && WellFormed(fmt, attribute, blocks, w)
    ensures NormalizeBlock(fmt, attribute.config, blocks, w) == Ok(w)
  {
    FixedList(w);
    var items := ListItems(w);
    forall i | 0 <= i < |items| ensures fmt.uuidValue(items[i]) in blocks && fmt.isUuid(items[i]) {
      assert w.items[i].s == items[i];
    }
    CountMeansAllDistinct(UuidValues(fmt, items), blocks);
  }

  /** Null and the well-formed values are exactly the values normalisation leaves alone. */
  lemma FixedPoints(fmt: Formats, attribute: Attribute, blocks: set<string>, w: Value)
    ensures Normalize(fmt, attribute, blocks, w) == Ok(w)
       <==> w == Null || WellFormed(fmt, attribute, blocks, w)
  {
    if Normalize(fmt, attribute, blocks, w) == Ok(w) {
      NormalizedIsWellFormed(fmt, attribute, blocks, w);
    } else if attribute.kind.MultiSelect? && WellFormed(fmt, attribute, blocks, w) {
      FixedMultiSelect(fmt, attribute, blocks, w);
    } else if attribute.kind.BlockType? && WellFormed(fmt, attribute, blocks, w) {
      FixedBlock(fmt, attribute, blocks, w);
    }
  }

  /** Normalising twice is normalising once. */
  lemma NormalizeIsIdempotent(fmt: Formats, attribute: Attribute, blocks: set<string>, v: Value)
    requires Normalize(fmt, attribute, blocks, v).Ok?
    ensures var w := Normalize(fmt, attribute, blocks, v).value;
      Normalize(fmt, attribute, blocks, w) == Ok(w)
  {
    NormalizedIsWellFormed(fmt, attribute, blocks, v);
    FixedPoints(fmt, attribute, blocks, Normalize(fmt, attribute, blocks, v).value);
  }
}
