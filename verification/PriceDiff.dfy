/** buildDifferences: which prices of which upstream channels differ from the local ones. */
module PriceDiff {
  import opened NearEquality

  /** A JSON value as it arrives in the pricing data; Int stands for the integers Go decodes as integers. */
  datatype Value = Null | Num(r: real) | Int(i: int) | Str(s: string) | Bool(b: bool)

  /** pricingSyncFields */
  datatype Field =
    | ModelRatio | CompletionRatio | CacheRatio | CreateCacheRatio | ImageRatio | AudioRatio | AudioCompletionRatio
    | ModelPrice | BillingMode | BillingExpr

  const FIELDS: seq<Field> := [
    ModelRatio, CompletionRatio, CacheRatio, CreateCacheRatio, ImageRatio, AudioRatio, AudioCompletionRatio,
    ModelPrice, BillingMode, BillingExpr]

  /** Field to model name to value.  A field that is absent or not an object reads as an empty table. */
  type Data = map<Field, map<string, Value>>

  datatype Channel = Channel(name: string, data: Data)

  datatype Item = Item(current: Value, upstreams: map<string, Value>, confidence: map<string, bool>)

  type Report = map<string, map<Field, Item>>

  const SAME := Str("same")

  predicate Numeric(field: Field) { !field.BillingMode? && !field.BillingExpr? }

  predicate ValuesEqual(a: Value, b: Value) {
    if a.Num? && b.Num? then NearlyEqual(a.r, b.r) else a == b
  }

  /** normalizeSyncValue: numbers of a numeric field are compared as floats. */
  function NormalizeValue(field: Field, v: Value): Value {
    if Numeric(field) && v.Int? then Num(v.i as real) else v
  }

  function Table(data: Data, field: Field): map<string, Value> {
    if field in data then data[field] else map[]
  }

  function Get(data: Data, field: Field, model: string): Value {
    if model in Table(data, field) then NormalizeValue(field, Table(data, field)[model]) else Null
  }

  predicate Has(ch: Channel, field: Field, model: string) { model in Table(ch.data, field) }

  // ---------------------------------------------------------------- what the report should say

  /** The promise: the channel has a value there and it is not the local one; no local value counts as Null. */
  predicate Differs(local: Data, ch: Channel, field: Field, model: string) {
    Has(ch, field, model) && !ValuesEqual(Get(local, field, model), Get(ch.data, field, model))
  }

  /** A difference that the report can show: neither null nor the text "same", which stand for "nothing there" and
      "no difference". */
  predicate Visible(local: Data, ch: Channel, field: Field, model: string) {
    Differs(local, ch, field, model) && !Get(ch.data, field, model).Null? && Get(ch.data, field, model) != SAME
  }

  ghost predicate DiffersSomewhere(local: Data, ch: Channel) {
    exists field, model :: field in FIELDS && Differs(local, ch, field, model)
  }

  ghost predicate VisibleSomewhere(local: Data, ch: Channel) {
    exists field, model :: field in FIELDS && Visible(local, ch, field, model)
  }

  /** What a value is compared as. */
  ghost predicate IsNumber(v: Value, x: real) {
    v == Num(x) || (v.Int? && v.i as real == x)
  }

  /** Two published numbers differ, in a field of numbers, when they are a billionth or more apart; anything else
      differs unless it is the same. */
  lemma DiffersIs(local: Data, ch: Channel, field: Field, model: string, l: Value, v: Value, x: real, y: real)
    requires field in local && model in local[field] && l == local[field][model]
    requires field in ch.data && model in ch.data[field] && v == ch.data[field][model]
    ensures field != BillingMode && field != BillingExpr && IsNumber(l, x) && IsNumber(v, y) ==>
      (Differs(local, ch, field, model) <==> x - y <= -0.000000001 || x - y >= 0.000000001)
    ensures l.Str? || v.Str? || l.Bool? || v.Bool? || l.Null? || v.Null? ==>
      (Differs(local, ch, field, model) <==> l != v)
  {
    NearlyEqualIs(x, y);
  }

  /** A value that is not published differs from nothing; one without a local value differs unless it is null. */
  lemma DiffersOneSided(local: Data, ch: Channel, field: Field, model: string)
    ensures !(field in ch.data && model in ch.data[field]) ==> !Differs(local, ch, field, model)
    ensures field in ch.data && model in ch.data[field] && !(field in local && model in local[field]) ==>
      (Differs(local, ch, field, model) <==> ch.data[field][model] != Null)
  {
  }

  // ---------------------------------------------------------------- what the passes compute

  /** What the comparison pass records for a channel. */
  function Shown(local: Data, ch: Channel, field: Field, model: string): Value {
    var l, v := Get(local, field, model), Get(ch.data, field, model);
    if Has(ch, field, model) then (if ValuesEqual(l, v) then SAME else v)
    else if l.Null? then SAME else Null
  }

  /** A channel is shown with its value where it differs, as "same" where it does not, and where it publishes nothing
      as null if there is a local value and as "same" if there is none. */
  lemma ShownIs(local: Data, ch: Channel, field: Field, model: string)
    ensures Differs(local, ch, field, model) ==>
      || Shown(local, ch, field, model) == ch.data[field][model]
      || (ch.data[field][model].Int? && Shown(local, ch, field, model) == Num(ch.data[field][model].i as real))
    ensures field in ch.data && model in ch.data[field] && !Differs(local, ch, field, model) ==>
      Shown(local, ch, field, model) == Str("same")
    ensures !(field in ch.data && model in ch.data[field]) ==>
      Shown(local, ch, field, model) ==
        if field in local && model in local[field] && local[field][model] != Null then Null else Str("same")
  {
  }

  predicate Included(local: Data, chs: seq<Channel>, field: Field, model: string) {
    exists i :: 0 <= i < |chs| && Has(chs[i], field, model) &&
      (Get(local, field, model).Null? || Differs(local, chs[i], field, model))
  }

  /** The pricing endpoint's placeholder prices are not to be trusted. */
  predicate Trusted(ch: Channel, model: string) {
    var ratios, completions := Table(ch.data, ModelRatio), Table(ch.data, CompletionRatio);
    !(|ratios| > 0 && |completions| > 0 && model in ratios && model in completions &&
      IsAbout(ratios[model], 37.5) && IsAbout(completions[model], 1.0))
  }

  predicate IsAbout(v: Value, x: real) {
    (v.Num? && NearlyEqual(v.r, x)) || (v.Int? && NearlyEqual(v.i as real, x))
  }

  /** A channel's price of a model is not to be trusted exactly when it publishes the ratio 37.5 with the completion
      ratio 1. */
  lemma TrustedIs(ch: Channel, model: string)
    ensures !Trusted(ch, model) <==>
      && ModelRatio in ch.data && model in ch.data[ModelRatio]
      && CompletionRatio in ch.data && model in ch.data[CompletionRatio]
      && (exists x :: IsNumber(ch.data[ModelRatio][model], x) && -0.000000001 < x - 37.5 < 0.000000001)
      && (exists x :: IsNumber(ch.data[CompletionRatio][model], x) && -0.000000001 < x - 1.0 < 0.000000001)
  {
    if ModelRatio in ch.data && model in ch.data[ModelRatio] { AboutIs(ch.data[ModelRatio][model], 37.5); }
    if CompletionRatio in ch.data && model in ch.data[CompletionRatio] {
      AboutIs(ch.data[CompletionRatio][model], 1.0);
    }
  }

  lemma AboutIs(v: Value, y: real)
    ensures IsAbout(v, y) <==> exists x :: IsNumber(v, x) && -0.000000001 < x - y < 0.000000001
  {
    if v.Num? {
      assert IsNumber(v, v.r);
    } else if v.Int? {
      assert IsNumber(v, v.i as real);
    }
  }

  /** A later channel of the same name replaces an earlier one. */
  function Upstreams(local: Data, chs: seq<Channel>, field: Field, model: string): map<string, Value> {
    if chs == [] then map[] else
    var last := chs[|chs| - 1];
    Upstreams(local, chs[..|chs| - 1], field, model)[last.name := Shown(local, last, field, model)]
  }

  function Confidence(chs: seq<Channel>, model: string): map<string, bool> {
    if chs == [] then map[] else
    var last := chs[|chs| - 1];
    Confidence(chs[..|chs| - 1], model)[last.name := Trusted(last, model)]
  }

  function ItemAt(local: Data, chs: seq<Channel>, field: Field, model: string): Item {
    Item(Get(local, field, model), Upstreams(local, chs, field, model), Confidence(chs, model))
  }

  function RowUpTo(local: Data, chs: seq<Channel>, model: string, k: nat): map<Field, Item>
    requires k <= |FIELDS|
  {
    if k == 0 then map[] else
    var row, field := RowUpTo(local, chs, model, k - 1), FIELDS[k - 1];
    if Included(local, chs, field, model) then row[field := ItemAt(local, chs, field, model)] else row
  }

  function Row(local: Data, chs: seq<Channel>, model: string): map<Field, Item> {
    RowUpTo(local, chs, model, |FIELDS|)
  }

  /** The models that have a row, with it. */
  function NonEmptyRows(rows: string -> map<Field, Item>, models: set<string>): Report {
    map model | model in models && rows(model) != map[] :: rows(model)
  }

  lemma NonEmptyRowsAdd(rows: string -> map<Field, Item>, models: set<string>, model: string)
    ensures NonEmptyRows(rows, models + {model}) ==
      if rows(model) == map[] then NonEmptyRows(rows, models) else NonEmptyRows(rows, models)[model := rows(model)]
  {
  }

  function Models(local: Data, chs: seq<Channel>): set<string> {
    ModelsOf(local) + set i, model | 0 <= i < |chs| && model in ModelsOf(chs[i].data) :: model
  }

  function ModelsOf(data: Data): set<string> {
    set field, model | field in FIELDS && model in Table(data, field) :: model
  }

  function Compared(local: Data, chs: seq<Channel>): Report {
    NonEmptyRows(model => Row(local, chs, model), Models(local, chs))
  }

  predicate IsDiff(v: Value) { !v.Null? && v != SAME }

  function WithDiff(d: Report): set<string> {
    set model, field, name | model in d && field in d[model] && name in d[model][field].upstreams &&
      IsDiff(d[model][field].upstreams[name]) :: name
  }

  function PruneItem(item: Item, names: set<string>): Item {
    item.(upstreams := map n | n in item.upstreams && n in names :: item.upstreams[n],
          confidence := map n | n in item.confidence && n in names :: item.confidence[n])
  }

  predicate Survives(item: Item) {
    exists n :: n in item.upstreams && item.upstreams[n] != SAME
  }

  function PruneRow(row: map<Field, Item>, names: set<string>): map<Field, Item> {
    map field | field in row && Survives(PruneItem(row[field], names)) :: PruneItem(row[field], names)
  }

  function Prune(d: Report, names: set<string>): Report {
    NonEmptyRows(model => if model in d then PruneRow(d[model], names) else map[], d.Keys)
  }

  function Differences(local: Data, chs: seq<Channel>): Report {
    var d := Compared(local, chs);
    Prune(d, WithDiff(d))
  }

  // ---------------------------------------------------------------- the passes

  method BuildDifferences(local: Data, chs: seq<Channel>) returns (differences: Report)
    ensures differences == Differences(local, chs)
  {
    var models := CollectModels(local, chs);
    var trust := ConfidenceTable(chs, models);
    differences := CompareAll(local, chs, models, trust);
    var names := ChannelsWithDiff(differences);
    differences := PruneAll(differences, names);
  }

  /** The comparison pass over all models. */
  method CompareAll(local: Data, chs: seq<Channel>, models: set<string>, trust: map<string, map<string, bool>>)
    returns (differences: Report)
    requires trust == TrustTable(chs, models)
    ensures differences == NonEmptyRows(model => Row(local, chs, model), models)
  {
    differences := map[];
    var todo := models;
    while todo != {}
      invariant todo <= models
      invariant differences == NonEmptyRows(model => Row(local, chs, model), models - todo)
      decreases todo
    {
      var model :| model in todo;
      NonEmptyRowsAdd(model => Row(local, chs, model), models - todo, model);
      assert models - todo + {model} == models - (todo - {model});
      TrustIsConfidence(chs, models, model);
      var row := CompareModel(local, chs, trust, model);
      if row != map[] { differences := differences[model := row]; }
      todo := todo - {model};
    }
  }

  method CollectModels(local: Data, chs: seq<Channel>) returns (models: set<string>)
    ensures models == Models(local, chs)
  {
    models := CollectFrom(local, {});
    for i := 0 to |chs|
      invariant models == Models(local, chs[..i])
    {
      models := CollectFrom(chs[i].data, models);
      assert chs[..i + 1] == chs[..i] + [chs[i]];
      ModelsSnoc(local, chs[..i], chs[i]);
    }
    assert chs[..|chs|] == chs;
  }

  lemma ModelsSnoc(local: Data, chs: seq<Channel>, ch: Channel)
    ensures Models(local, chs + [ch]) == Models(local, chs) + ModelsOf(ch.data)
  {
    forall model ensures model in Models(local, chs + [ch]) <==> model in Models(local, chs) + ModelsOf(ch.data) {
      if model in ModelsOf(ch.data) { assert (chs + [ch])[|chs|] == ch; }
      if i :| 0 <= i < |chs| && model in ModelsOf(chs[i].data) { assert (chs + [ch])[i] == chs[i]; }
    }
  }

  method CollectFrom(data: Data, found: set<string>) returns (models: set<string>)
    ensures models == found + ModelsOf(data)
  {
    models := found;
    for k := 0 to |FIELDS|
      invariant models == found + set j, model | 0 <= j < k && model in Table(data, FIELDS[j]) :: model
    {
      models := models + Table(data, FIELDS[k]).Keys;
    }
  }

  /** confidenceMap: for every channel name, whether its price of each model is to be trusted. */
  function TrustTable(chs: seq<Channel>, models: set<string>): map<string, map<string, bool>> {
    if chs == [] then map[] else
    var last := chs[|chs| - 1];
    TrustTable(chs[..|chs| - 1], models)[last.name := map model | model in models :: Trusted(last, model)]
  }

  /** The credibility pass. */
  method ConfidenceTable(chs: seq<Channel>, models: set<string>) returns (trust: map<string, map<string, bool>>)
    ensures trust == TrustTable(chs, models)
  {
    trust := map[];
    for i := 0 to |chs|
      invariant trust == TrustTable(chs[..i], models)
    {
      var marks := MarkModels(chs[i], models);
      trust := trust[chs[i].name := marks];
      assert chs[..i + 1][..i] == chs[..i];
    }
    assert chs[..|chs|] == chs;
  }

  method MarkModels(ch: Channel, models: set<string>) returns (marks: map<string, bool>)
    ensures marks == map model | model in models :: Trusted(ch, model)
  {
    marks := map[];
    var todo := models;
    while todo != {}
      invariant todo <= models && marks == map model | model in models - todo :: Trusted(ch, model)
      decreases todo
    {
      var model :| model in todo;
      var trusted := Mark(ch, model);
      marks := marks[model := trusted];
      todo := todo - {model};
    }
  }

  method Mark(ch: Channel, model: string) returns (trusted: bool)
    ensures trusted == Trusted(ch, model)
  {
    var ratios, completions := Table(ch.data, ModelRatio), Table(ch.data, CompletionRatio);
    trusted := true;
    if |ratios| > 0 && |completions| > 0 && model in ratios && model in completions {
      if IsAbout(ratios[model], 37.5) && IsAbout(completions[model], 1.0) { trusted := false; }
    }
  }

  /** confidenceValues; a name or model that the table lacks reads as false. */
  function TrustAt(trust: map<string, map<string, bool>>, chs: seq<Channel>, model: string): map<string, bool> {
    if chs == [] then map[] else
    var name := chs[|chs| - 1].name;
    TrustAt(trust, chs[..|chs| - 1], model)[name := name in trust && model in trust[name] && trust[name][model]]
  }

  lemma {:induction false} TrustAtMembers(trust: map<string, map<string, bool>>, chs: seq<Channel>, model: string)
    ensures TrustAt(trust, chs, model).Keys == Confidence(chs, model).Keys
    ensures forall name | name in TrustAt(trust, chs, model) ::
      TrustAt(trust, chs, model)[name] == (name in trust && model in trust[name] && trust[name][model])
  {
    if chs != [] { TrustAtMembers(trust, chs[..|chs| - 1], model); }
  }

  lemma {:induction false} TrustTableMembers(chs: seq<Channel>, models: set<string>, model: string)
    requires model in models
    ensures TrustTable(chs, models).Keys == Confidence(chs, model).Keys
    ensures forall name | name in TrustTable(chs, models) ::
      model in TrustTable(chs, models)[name] && TrustTable(chs, models)[name][model] == Confidence(chs, model)[name]
  {
    if chs != [] { TrustTableMembers(chs[..|chs| - 1], models, model); }
  }

  lemma TrustIsConfidence(chs: seq<Channel>, models: set<string>, model: string)
    requires model in models
    ensures TrustAt(TrustTable(chs, models), chs, model) == Confidence(chs, model)
  {
    TrustAtMembers(TrustTable(chs, models), chs, model);
    TrustTableMembers(chs, models, model);
  }

  method CompareModel(local: Data, chs: seq<Channel>, trust: map<string, map<string, bool>>, model: string)
    returns (row: map<Field, Item>)
    requires TrustAt(trust, chs, model) == Confidence(chs, model)
    ensures row == Row(local, chs, model)
  {
    row := map[];
    for k := 0 to |FIELDS|
      invariant row == RowUpTo(local, chs, model, k)
    {
      var wanted, item := CompareAt(local, chs, trust, FIELDS[k], model);
      if wanted { row := row[FIELDS[k] := item]; }
    }
  }

  /** The comparison of one field of one model with every channel. */
  method CompareAt(local: Data, chs: seq<Channel>, trust: map<string, map<string, bool>>, field: Field, model: string)
    returns (wanted: bool, item: Item)
    requires TrustAt(trust, chs, model) == Confidence(chs, model)
    ensures wanted == Included(local, chs, field, model)
    ensures item == ItemAt(local, chs, field, model)
  {
    var localValue := Get(local, field, model);
    var seen := ScanChannels(local, chs, trust, field, model);
    ScanMeans(local, trust, chs, field, model);
    FlagsMeanIncluded(local, chs, field, model);
    item := Item(localValue, seen.upstreams, seen.confidence);
    wanted := if !localValue.Null? then seen.hasDifference else seen.hasUpstream;
  }

  method ScanChannels(local: Data, chs: seq<Channel>, trust: map<string, map<string, bool>>, field: Field,
                      model: string)
    returns (seen: Seen)
    ensures seen == Scan(local, trust, chs, field, model)
  {
    seen := Seen(map[], map[], false, false);
    for i := 0 to |chs|
      invariant seen == Scan(local, trust, chs[..i], field, model)
    {
      assert chs[..i + 1] == chs[..i] + [chs[i]];
      seen := ScanChannel(local, chs[..i], chs[i], trust, field, model, seen);
    }
    assert chs[..|chs|] == chs;
  }

  method ScanChannel(local: Data, ghost before: seq<Channel>, ch: Channel, trust: map<string, map<string, bool>>,
                     field: Field, model: string, seen: Seen)
    returns (next: Seen)
    requires seen == Scan(local, trust, before, field, model)
    ensures next == Scan(local, trust, before + [ch], field, model)
  {
    var value, present, different := CompareChannel(local, ch, field, model);
    var trusted := ch.name in trust && model in trust[ch.name] && trust[ch.name][model];
    ScanSnoc(local, trust, before, ch, field, model);
    next := Noted(seen, ch.name, value, trusted, present, different);
  }

  /** The variables of the loop over the channels. */
  datatype Seen = Seen(
    upstreams: map<string, Value>, confidence: map<string, bool>, hasUpstream: bool, hasDifference: bool)

  ghost function Scan(local: Data, trust: map<string, map<string, bool>>, chs: seq<Channel>, field: Field,
                      model: string): Seen {
    if chs == [] then Seen(map[], map[], false, false) else
    var before, last := Scan(local, trust, chs[..|chs| - 1], field, model), chs[|chs| - 1];
    Noted(before, last.name, Shown(local, last, field, model),
          last.name in trust && model in trust[last.name] && trust[last.name][model],
          Has(last, field, model), MarksDifference(local, last, field, model))
  }

  function Noted(seen: Seen, name: string, value: Value, trusted: bool, present: bool, different: bool): Seen {
    Seen(seen.upstreams[name := value], seen.confidence[name := trusted],
         seen.hasUpstream || present, seen.hasDifference || different)
  }

  lemma ScanSnoc(local: Data, trust: map<string, map<string, bool>>, chs: seq<Channel>, ch: Channel, field: Field,
                 model: string)
    ensures var before := Scan(local, trust, chs, field, model);
      Scan(local, trust, chs + [ch], field, model) ==
        Noted(before, ch.name, Shown(local, ch, field, model),
              ch.name in trust && model in trust[ch.name] && trust[ch.name][model],
              Has(ch, field, model), MarksDifference(local, ch, field, model))
  {
    assert (chs + [ch])[..|chs|] == chs;
  }

  lemma {:induction false} ScanMeans(local: Data, trust: map<string, map<string, bool>>, chs: seq<Channel>,
                                     field: Field, model: string)
    ensures Scan(local, trust, chs, field, model) == Seen(
      Upstreams(local, chs, field, model), TrustAt(trust, chs, model),
      AnyPresent(chs, field, model), AnyMarked(local, chs, field, model))
  {
    if chs != [] { ScanMeans(local, trust, chs[..|chs| - 1], field, model); }
  }

  predicate AnyPresent(chs: seq<Channel>, field: Field, model: string) {
    chs != [] && (AnyPresent(chs[..|chs| - 1], field, model) || Has(chs[|chs| - 1], field, model))
  }

  predicate AnyMarked(local: Data, chs: seq<Channel>, field: Field, model: string) {
    && chs != []
    && (AnyMarked(local, chs[..|chs| - 1], field, model) || MarksDifference(local, chs[|chs| - 1], field, model))
  }

  lemma {:induction false} FlagsMeanIncluded(local: Data, chs: seq<Channel>, field: Field, model: string)
    ensures Included(local, chs, field, model) ==
      if Get(local, field, model).Null? then AnyPresent(chs, field, model) else AnyMarked(local, chs, field, model)
  {
    if chs != [] {
      var init, last := chs[..|chs| - 1], chs[|chs| - 1];
      FlagsMeanIncluded(local, init, field, model);
      assert forall i | 0 <= i < |init| :: init[i] == chs[i];
    }
  }

  /** What sets hasDifference. */
  predicate MarksDifference(local: Data, ch: Channel, field: Field, model: string) {
    var l, v := Get(local, field, model), Get(ch.data, field, model);
    Has(ch, field, model) && if l.Null? then IsDiff(v) else !ValuesEqual(l, v)
  }

  method CompareChannel(local: Data, ch: Channel, field: Field, model: string)
    returns (value: Value, present: bool, different: bool)
    ensures value == Shown(local, ch, field, model)
    ensures present == Has(ch, field, model)
    ensures different == MarksDifference(local, ch, field, model)
  {
    var localValue := Null;
    if model in Table(local, field) { localValue := NormalizeValue(field, Table(local, field)[model]); }
    value, present, different := Null, false, false;
    if model in Table(ch.data, field) {
      value := NormalizeValue(field, Table(ch.data, field)[model]);
      present := true;
      if !localValue.Null? && !ValuesEqual(localValue, value) {
        different := true;
      } else if ValuesEqual(localValue, value) {
        value := SAME;
      }
    }
    if value.Null? && localValue.Null? { value := SAME; }
    if localValue.Null? && !value.Null? && value != SAME { different := true; }
  }

  method ChannelsWithDiff(d: Report) returns (names: set<string>)
    ensures names == WithDiff(d)
  {
    names := {};
    var todo := d.Keys;
    while todo != {}
      invariant todo <= d.Keys
      invariant names == set model, field, name |
        model in d.Keys - todo && field in d[model] && name in d[model][field].upstreams &&
        IsDiff(d[model][field].upstreams[name]) :: name
      decreases todo
    {
      var model :| model in todo;
      var more := RowDiffs(d[model]);
      names := names + more;
      todo := todo - {model};
    }
  }

  method RowDiffs(row: map<Field, Item>) returns (names: set<string>)
    ensures names == set field, name |
      field in row && name in row[field].upstreams && IsDiff(row[field].upstreams[name]) :: name
  {
    names := {};
    var todo := row.Keys;
    while todo != {}
      invariant todo <= row.Keys
      invariant names == set field, name |
        field in row.Keys - todo && name in row[field].upstreams && IsDiff(row[field].upstreams[name]) :: name
      decreases todo
    {
      var field :| field in todo;
      var ups := row[field].upstreams;
      var left := ups.Keys;
      ghost var before := names;
      while left != {}
        invariant left <= ups.Keys
        invariant names == before + set name | name in ups.Keys - left && IsDiff(ups[name])
        decreases left
      {
        var name :| name in left;
        if !ups[name].Null? && ups[name] != SAME { names := names + {name}; }
        left := left - {name};
      }
      todo := todo - {field};
    }
  }

  /** The pruning pass: channels without a difference go, then items without one, then models without items. */
  method PruneAll(d: Report, names: set<string>) returns (pruned: Report)
    ensures pruned == Prune(d, names)
  {
    pruned := d;
    var todo := d.Keys;
    ghost var rows := (model: string) => if model in d then PruneRow(d[model], names) else map[];
    while todo != {}
      invariant todo <= d.Keys
      invariant pruned == PartlyPruned(d, rows, todo)
      decreases todo
    {
      var model :| model in todo;
      var row := PruneOne(d[model], names);
      PartlyPrunedStep(d, rows, todo, model);
      pruned := if row == map[] then pruned - {model} else pruned[model := row];
      todo := todo - {model};
    }
    PartlyPrunedDone(d, rows);
  }

  ghost function PartlyPruned(d: Report, rows: string -> map<Field, Item>, todo: set<string>): Report {
    map model | model in d && (model in todo || rows(model) != map[]) :: if model in todo then d[model] else rows(model)
  }

  lemma PartlyPrunedStep(d: Report, rows: string -> map<Field, Item>, todo: set<string>, model: string)
    requires model in todo && todo <= d.Keys
    ensures PartlyPruned(d, rows, todo - {model}) ==
      var p := PartlyPruned(d, rows, todo); if rows(model) == map[] then p - {model} else p[model := rows(model)]
  {
  }

  lemma PartlyPrunedDone(d: Report, rows: string -> map<Field, Item>)
    ensures PartlyPruned(d, rows, d.Keys) == d
    ensures PartlyPruned(d, rows, {}) == NonEmptyRows(rows, d.Keys)
  {
  }

  method PruneOne(row: map<Field, Item>, names: set<string>) returns (pruned: map<Field, Item>)
    ensures pruned == PruneRow(row, names)
  {
    pruned := row;
    var todo := row.Keys;
    while todo != {}
      invariant todo <= row.Keys
      invariant pruned == map field | field in row && (field in todo || Survives(PruneItem(row[field], names))) ::
        if field in todo then row[field] else PruneItem(row[field], names)
      decreases todo
    {
      var field :| field in todo;
      var item := PruneItem(row[field], names);
      var allSame := AllSame(item.upstreams);
      pruned := if |item.upstreams| == 0 || allSame then pruned - {field} else pruned[field := item];
      todo := todo - {field};
    }
  }

  method AllSame(upstreams: map<string, Value>) returns (same: bool)
    ensures same <==> forall n | n in upstreams :: upstreams[n] == SAME
  {
    var left := upstreams.Keys;
    while left != {}
      invariant left <= upstreams.Keys && forall n | n in upstreams && n !in left :: upstreams[n] == SAME
      decreases left
    {
      var n :| n in left;
      if upstreams[n] != SAME { return false; }
      left := left - {n};
    }
    return true;
  }

  // ---------------------------------------------------------------- what the report says

  ghost predicate Reported(r: Report, field: Field, model: string) {
    model in r && field in r[model]
  }

  ghost predicate DistinctNames(chs: seq<Channel>) {
    forall i, j | 0 <= i < j < |chs| :: chs[i].name != chs[j].name
  }

  lemma {:induction false} RowMembers(local: Data, chs: seq<Channel>, model: string, k: nat, field: Field)
    requires k <= |FIELDS|
    ensures field in RowUpTo(local, chs, model, k) <==> field in FIELDS[..k] && Included(local, chs, field, model)
    ensures field in RowUpTo(local, chs, model, k) ==>
      RowUpTo(local, chs, model, k)[field] == ItemAt(local, chs, field, model)
  {
    if k > 0 {
      RowMembers(local, chs, model, k - 1, field);
      assert FIELDS[..k] == FIELDS[..k - 1] + [FIELDS[k - 1]];
    }
  }

  lemma AllFields(field: Field)
    ensures field in FIELDS[..|FIELDS|]
  {
    assert FIELDS[0].ModelRatio? && FIELDS[1].CompletionRatio? && FIELDS[2].CacheRatio? && FIELDS[3].CreateCacheRatio?;
    assert FIELDS[4].ImageRatio? && FIELDS[5].AudioRatio? && FIELDS[6].AudioCompletionRatio?;
    assert FIELDS[7].ModelPrice? && FIELDS[8].BillingMode? && FIELDS[9].BillingExpr?;
  }

  lemma NonEmptyRowsMember(rows: string -> map<Field, Item>, models: set<string>, field: Field, model: string)
    ensures Reported(NonEmptyRows(rows, models), field, model) <==> model in models && field in rows(model)
    ensures Reported(NonEmptyRows(rows, models), field, model) ==> NonEmptyRows(rows, models)[model] == rows(model)
  {
  }

  lemma ComparedMembers(local: Data, chs: seq<Channel>, field: Field, model: string)
    ensures Reported(Compared(local, chs), field, model) <==> Included(local, chs, field, model)
    ensures Reported(Compared(local, chs), field, model) ==>
      Compared(local, chs)[model][field] == ItemAt(local, chs, field, model)
  {
    NonEmptyRowsMember(model => Row(local, chs, model), Models(local, chs), field, model);
    RowMembers(local, chs, model, |FIELDS|, field);
    AllFields(field);
    if Included(local, chs, field, model) { IncludedModel(local, chs, field, model); }
  }

  lemma IncludedModel(local: Data, chs: seq<Channel>, field: Field, model: string)
    requires Included(local, chs, field, model)
    ensures model in Models(local, chs)
  {
    var i :| 0 <= i < |chs| && Has(chs[i], field, model);
    AllFields(field);
    assert model in ModelsOf(chs[i].data);
  }

  lemma {:induction false} UpstreamsMember(local: Data, chs: seq<Channel>, field: Field, model: string, name: string)
    returns (i: nat)
    requires name in Upstreams(local, chs, field, model)
    ensures i < |chs| && chs[i].name == name
    ensures Upstreams(local, chs, field, model)[name] == Shown(local, chs[i], field, model)
  {
    i := |chs| - 1;
    if name != chs[i].name { i := UpstreamsMember(local, chs[..i], field, model, name); }
  }

  /** The last channel of a name is the one that is shown. */
  lemma {:induction false} UpstreamOf(local: Data, chs: seq<Channel>, field: Field, model: string, i: nat)
    requires i < |chs| && forall j | i < j < |chs| :: chs[j].name != chs[i].name
    ensures chs[i].name in Upstreams(local, chs, field, model)
    ensures Upstreams(local, chs, field, model)[chs[i].name] == Shown(local, chs[i], field, model)
    ensures chs[i].name in Confidence(chs, model) && Confidence(chs, model)[chs[i].name] == Trusted(chs[i], model)
  {
    if i < |chs| - 1 { UpstreamOf(local, chs[..|chs| - 1], field, model, i); }
  }

  /** The channels that survive the last pass are those with a difference the report can show. */
  lemma WithDiffMembers(local: Data, chs: seq<Channel>, i: nat)
    requires DistinctNames(chs) && i < |chs|
    ensures chs[i].name in WithDiff(Compared(local, chs)) <==> VisibleSomewhere(local, chs[i])
  {
    var d := Compared(local, chs);
    if chs[i].name in WithDiff(d) {
      var model, field :| model in d && field in d[model] && chs[i].name in d[model][field].upstreams &&
        IsDiff(d[model][field].upstreams[chs[i].name]);
      ComparedMembers(local, chs, field, model);
      UpstreamOf(local, chs, field, model, i);
      AllFields(field);
      assert Visible(local, chs[i], field, model);
    }
    if field, model :| field in FIELDS && Visible(local, chs[i], field, model) {
      ComparedMembers(local, chs, field, model);
      UpstreamOf(local, chs, field, model, i);
    }
  }

  lemma PruneMembers(d: Report, names: set<string>, field: Field, model: string)
    ensures Reported(Prune(d, names), field, model) <==>
      Reported(d, field, model) && Survives(PruneItem(d[model][field], names))
    ensures Reported(Prune(d, names), field, model) ==>
      Prune(d, names)[model][field] == PruneItem(d[model][field], names)
  {
    NonEmptyRowsMember(model => if model in d then PruneRow(d[model], names) else map[], d.Keys, field, model);
  }

  /** Whatever is reported is a difference. */
  lemma ReportSound(local: Data, chs: seq<Channel>, field: Field, model: string)
    requires Reported(Differences(local, chs), field, model)
    ensures exists i :: 0 <= i < |chs| && Differs(local, chs[i], field, model)
  {
    var d := Compared(local, chs);
    PruneMembers(d, WithDiff(d), field, model);
    ComparedMembers(local, chs, field, model);
    if Get(local, field, model).Null? {
      var name :| name in d[model][field].upstreams && d[model][field].upstreams[name] != SAME;
      var i := UpstreamsMember(local, chs, field, model, name);
      assert Differs(local, chs[i], field, model);
    } else {
      var i :| 0 <= i < |chs| && Has(chs[i], field, model) && Differs(local, chs[i], field, model);
    }
  }

  /** Some channel that is listed at all is not shown as "same" at this place. */
  ghost predicate ShownHere(local: Data, chs: seq<Channel>, field: Field, model: string) {
    exists i :: 0 <= i < |chs| && VisibleSomewhere(local, chs[i]) && Shown(local, chs[i], field, model) != SAME
  }

  /** A place where some channel differs is reported exactly when some listed channel is not shown as "same" there. */
  lemma ReportedExactlyWhen(local: Data, chs: seq<Channel>, field: Field, model: string)
    requires DistinctNames(chs)
    ensures Reported(Differences(local, chs), field, model) <==>
      (exists i :: 0 <= i < |chs| && Differs(local, chs[i], field, model)) && ShownHere(local, chs, field, model)
  {
    if Reported(Differences(local, chs), field, model) {
      ReportSound(local, chs, field, model);
      ReportedIsShown(local, chs, field, model);
    }
    if (exists i :: 0 <= i < |chs| && Differs(local, chs[i], field, model)) && ShownHere(local, chs, field, model) {
      ShownIsReported(local, chs, field, model);
    }
  }

  lemma ReportedIsShown(local: Data, chs: seq<Channel>, field: Field, model: string)
    requires DistinctNames(chs) && Reported(Differences(local, chs), field, model)
    ensures ShownHere(local, chs, field, model)
  {
    var d := Compared(local, chs);
    var names := WithDiff(d);
    PruneMembers(d, names, field, model);
    ComparedMembers(local, chs, field, model);
    var name :| name in d[model][field].upstreams && name in names && d[model][field].upstreams[name] != SAME;
    var i := UpstreamsMember(local, chs, field, model, name);
    WithDiffMembers(local, chs, i);
  }

  lemma ShownIsReported(local: Data, chs: seq<Channel>, field: Field, model: string)
    requires DistinctNames(chs) && ShownHere(local, chs, field, model)
    requires exists i :: 0 <= i < |chs| && Differs(local, chs[i], field, model)
    ensures Reported(Differences(local, chs), field, model)
  {
    var d := Compared(local, chs);
    var names := WithDiff(d);
    PruneMembers(d, names, field, model);
    ComparedMembers(local, chs, field, model);
    var i :| 0 <= i < |chs| && VisibleSomewhere(local, chs[i]) && Shown(local, chs[i], field, model) != SAME;
    WithDiffMembers(local, chs, i);
    UpstreamOf(local, chs, field, model, i);
    assert PruneItem(d[model][field], names).upstreams[chs[i].name] != SAME;
  }

  /** What a reported item holds: the local value, and for each channel with a difference that can be shown
      anywhere, and for no other, what the comparison found and whether it is to be trusted. */
  lemma ReportContents(local: Data, chs: seq<Channel>, field: Field, model: string, i: nat)
    requires DistinctNames(chs) && i < |chs| && Reported(Differences(local, chs), field, model)
    ensures var item := Differences(local, chs)[model][field];
      && item.current == Get(local, field, model)
      && (chs[i].name in item.upstreams <==> VisibleSomewhere(local, chs[i]))
      && (chs[i].name in item.confidence <==> VisibleSomewhere(local, chs[i]))
      && (VisibleSomewhere(local, chs[i]) ==>
            && item.upstreams[chs[i].name] == Shown(local, chs[i], field, model)
            && item.confidence[chs[i].name] == Trusted(chs[i], model))
  {
    var d := Compared(local, chs);
    PruneMembers(d, WithDiff(d), field, model);
    ComparedMembers(local, chs, field, model);
    UpstreamOf(local, chs, field, model, i);
    WithDiffMembers(local, chs, i);
  }

  /** No upstream value that differs from the local one is null or the text "same". */
  ghost predicate AllVisible(local: Data, chs: seq<Channel>) {
    forall i, field, model | 0 <= i < |chs| && Differs(local, chs[i], field, model) ::
      Visible(local, chs[i], field, model)
  }

  /** For such data the four passes report exactly the differences, and list exactly the channels that differ. */
  lemma ReportIsExact(local: Data, chs: seq<Channel>, field: Field, model: string)
    requires DistinctNames(chs) && AllVisible(local, chs)
    ensures Reported(Differences(local, chs), field, model) <==>
      exists i :: 0 <= i < |chs| && Differs(local, chs[i], field, model)
    ensures forall i | 0 <= i < |chs| && Reported(Differences(local, chs), field, model) ::
      chs[i].name in Differences(local, chs)[model][field].upstreams <==> DiffersSomewhere(local, chs[i])
  {
    ReportedExactlyWhen(local, chs, field, model);
    AllFields(field);
    if i :| 0 <= i < |chs| && Differs(local, chs[i], field, model) {
      assert Visible(local, chs[i], field, model);
      assert Shown(local, chs[i], field, model) != SAME;
    }
    forall i | 0 <= i < |chs| && Reported(Differences(local, chs), field, model)
      ensures chs[i].name in Differences(local, chs)[model][field].upstreams <==> DiffersSomewhere(local, chs[i])
    {
      ReportContents(local, chs, field, model, i);
      if f, m :| f in FIELDS && Differs(local, chs[i], f, m) { assert Visible(local, chs[i], f, m); }
    }
  }

  /** Without that, a difference can go unreported: nothing is reported when no difference can be shown. */
  lemma InvisibleIsDropped(local: Data, chs: seq<Channel>, field: Field, model: string)
    requires DistinctNames(chs) && forall i | 0 <= i < |chs| :: !VisibleSomewhere(local, chs[i])
    ensures !Reported(Differences(local, chs), field, model)
  {
    ReportedExactlyWhen(local, chs, field, model);
  }

  /** Such data exists: a channel that publishes null, or the text "same", where there is a local value. */
  lemma InvisibleExample(hidden: Value)
    requires hidden == Null || hidden == SAME
    ensures exists local: Data, ch: Channel ::
      Differs(local, ch, BillingMode, "m") && !Reported(Differences(local, [ch]), BillingMode, "m")
  {
    var local: Data := map[BillingMode := map["m" := Str("tokens")]];
    var ch := Channel("c", map[BillingMode := map["m" := hidden]]);
    assert Differs(local, ch, BillingMode, "m") by {
      assert Str("tokens") != SAME by { assert "tokens"[0] != "same"[0]; }
    }
    InvisibleIsDropped(local, [ch], BillingMode, "m");
  }
}
