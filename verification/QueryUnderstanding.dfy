/** From the chat model's answer to API filters (app/services/recommendation/query_understanding.py).
    Case folding and stripping of text are parameters. */
module QueryUnderstanding {
  import opened Dicts
  import opened Matches
  import opened FilterBuilder

  datatype Kind = TextKind | NumberKind

  datatype Profile = Profile(kind: Kind, values: seq<string>)

  datatype RawCondition = RawCondition(field: string, op: string, textValues: seq<string>, number: Value)

  datatype Note = NotAFilterField(name: string) | NeedsNumberRange(name: string) | IsText(name: string)
                | NoItemsWith(name: string, text: string) | MoreThanOne(name: string) | CouldNotApply

  datatype TextTools = TextTools(fold: string -> string, strip: string -> string)

  const TEXT_OPS: seq<string> := ["eq", "ne", "in", "nin"]
  const RANGE_OPS: seq<string> := ["gt", "gte", "lt", "lte"]

  /** `{v.casefold(): v for v in profile.values}.get(folded)` */
  function KnownValue(values: seq<string>, folded: string, tools: TextTools): (r: Option<string>)
    ensures r.Some? ==> r.value in values
    decreases |values|
  {
    if values == [] then None
    else if tools.fold(values[|values| - 1]) == folded then Some(values[|values| - 1])
    else KnownValue(values[..|values| - 1], folded, tools)
  }

  function Resolve(name: string, texts: seq<string>, profile: Profile, tools: TextTools): (r: (seq<string>, seq<Note>))
    ensures forall v :: v in r.0 ==> v in profile.values || profile.values == []
  {
    if texts == [] then ([], [])
    else
      var text := tools.strip(texts[0]);
      var (values, notes) := Resolve(name, texts[1..], profile, tools);
      match KnownValue(profile.values, tools.fold(text), tools)
      case Some(v) => ([v] + values, notes)
      case None =>
        if profile.values == [] then ([text] + values, notes)
        else (values, [NoItemsWith(name, texts[0])] + notes)
  }

  /** `list(dict.fromkeys(v for v in values if v))` */
  function Distinct(values: seq<string>): (r: seq<string>)
    ensures forall v :: v in r <==> v in values && v != ""
    ensures forall i, j :: 0 <= i < j < |r| ==> r[i] != r[j]
    decreases |values|
  {
    if values == [] then []
    else
      var front, last := values[..|values| - 1], values[|values| - 1];
      assert values == front + [last];
      var r := Distinct(front);
      if last == "" || last in r then r else r + [last]
  }

  function Texts(values: seq<string>): seq<Value>
  {
    seq(|values|, i requires 0 <= i < |values| => Str(values[i]))
  }

  /** What one condition of the answer asks for, if the catalogue supports it. */
  function Convert(c: RawCondition, profiles: map<string, Profile>, tools: TextTools): (Option<ApiFilter>, seq<Note>) {
    if c.field !in profiles then (None, [NotAFilterField(c.field)])
    else if profiles[c.field].kind.NumberKind? then
      if !IsNumber(c.number) || (c.op !in RANGE_OPS && c.op != "eq") then (None, [NeedsNumberRange(c.field)])
      else if c.op == "eq" then (Some(Plain(c.number)), [])
      else (Some(Ops([(c.op, c.number)])), [])
    else if c.op !in TEXT_OPS then (None, [IsText(c.field)])
    else
      var (resolved, notes) := Resolve(c.field, c.textValues, profiles[c.field], tools);
      var values := Distinct(resolved);
      if values == [] then (None, notes)
      else if c.op == "eq" || c.op == "in" then
        (Some(Plain(if |values| == 1 then Str(values[0]) else List(Texts(values)))), notes)
      else (Some(Ops([("nin", List(Texts(values)))])), notes)
  }

  predicate SharesKey(a: Dict<string, Value>, b: Dict<string, Value>) {
    exists i :: 0 <= i < |b| && HasKey(a, b[i].0)
  }

  /** `current.update(condition)` */
  function Update(current: Dict<string, Value>, condition: Dict<string, Value>): Dict<string, Value>
    decreases |condition|
  {
    if condition == [] then current else Update(Put(current, condition[0].0, condition[0].1), condition[1..])
  }

  function Merge(filters: Dict<string, ApiFilter>, name: string, condition: ApiFilter)
    : (Dict<string, ApiFilter>, seq<Note>)
  {
    match Get(filters, name)
    case None => (Put(filters, name, condition), [])
    case Some(current) =>
      if current.Ops? && condition.Ops? && !SharesKey(current.spec, condition.spec)
      then (Put(filters, name, Ops(Update(current.spec, condition.spec))), [])
      else (filters, [MoreThanOne(name)])
  }

  function AddCondition(filters: Dict<string, ApiFilter>, c: RawCondition, profiles: map<string, Profile>,
                        tools: TextTools)
    : (Dict<string, ApiFilter>, seq<Note>)
  {
    var (condition, notes) := Convert(c, profiles, tools);
    match condition
    case None => (filters, notes)
    case Some(f) => var (merged, more) := Merge(filters, c.field, f); (merged, notes + more)
  }

  function ToFilters(raw: seq<RawCondition>, profiles: map<string, Profile>, tools: TextTools)
    : (Dict<string, ApiFilter>, seq<Note>)
    decreases |raw|
  {
    if raw == [] then ([], [])
    else
      var (filters, ignored) := ToFilters(raw[..|raw| - 1], profiles, tools);
      var (merged, notes) := AddCondition(filters, raw[|raw| - 1], profiles, tools);
      (merged, ignored + notes)
  }

  method ToFiltersLoop(raw: seq<RawCondition>, profiles: map<string, Profile>, tools: TextTools)
    returns (filters: Dict<string, ApiFilter>, ignored: seq<Note>)
    ensures (filters, ignored) == ToFilters(raw, profiles, tools)
  {
    filters, ignored := [], [];
    for i := 0 to |raw|
      invariant (filters, ignored) == ToFilters(raw[..i], profiles, tools)
    {
      var c := raw[i];
      assert raw[..i + 1][..i] == raw[..i] && raw[..i + 1][i] == c;
      var (condition, notes) := Convert(c, profiles, tools);
      if condition.Some? {
        var (merged, more) := Merge(filters, c.field, condition.value);
        filters, ignored := merged, ignored + (notes + more);
      } else {
        ignored := ignored + notes;
      }
    }
    assert raw[..|raw|] == raw;
  }

  // ---- What the answer's kept conditions are, without the dictionary ----

  type Kept = seq<(string, ApiFilter)>

  /** A condition is kept when it is the field's first, or when it and all those kept for the field
      before are operators, each another one. */
  ghost predicate Compatible(kept: Kept, name: string, f: ApiFilter) {
    forall k :: 0 <= k < |kept| && kept[k].0 == name ==>
      kept[k].1.Ops? && f.Ops? && !SharesKey(kept[k].1.spec, f.spec)
  }

  ghost function KeptConditions(raw: seq<RawCondition>, profiles: map<string, Profile>, tools: TextTools): Kept
    decreases |raw|
  {
    if raw == [] then []
    else
      var kept := KeptConditions(raw[..|raw| - 1], profiles, tools);
      var c := raw[|raw| - 1];
      var condition := Convert(c, profiles, tools).0;
      if condition.Some? && Compatible(kept, c.field, condition.value) then kept + [(c.field, condition.value)]
      else kept
  }

  /** An item satisfies all of them. */
  ghost predicate Satisfies(kept: Kept, metadata: map<string, Value>) {
    forall k :: 0 <= k < |kept| ==> Means(kept[k].1, Field(metadata, kept[k].0))
  }

  /** A lower and an upper bound kept for one field exclude each other. */
  ghost predicate EmptyRangeKept(kept: Kept) {
    exists i, j :: 0 <= i < |kept| && 0 <= j < |kept| && kept[i].0 == kept[j].0 && Clash(kept[i].1, kept[j].1)
  }

  ghost predicate Clash(a: ApiFilter, b: ApiFilter) {
    && a.Ops? && b.Ops? && |a.spec| == 1 == |b.spec|
    && EntriesClash(a.spec[0], b.spec[0])
  }

  predicate IsLower(e: (string, Value)) {
    (e.0 == "gt" || e.0 == "gte") && e.1.Num?
  }

  predicate IsUpper(e: (string, Value)) {
    (e.0 == "lt" || e.0 == "lte") && e.1.Num?
  }

  predicate EntriesClash(a: (string, Value), b: (string, Value)) {
    IsLower(a) && IsUpper(b) && a.1.n > b.1.n
  }

  // ---- Shapes ----

  ghost predicate TextList(v: Value) {
    v.List? && v.items != [] && forall i :: 0 <= i < |v.items| ==> v.items[i].Str? && v.items[i].s != ""
  }

  ghost predicate GoodEntry(e: (string, Value)) {
    || ((e.0 == "gt" || e.0 == "gte" || e.0 == "lt" || e.0 == "lte") && e.1.Num?)
    || (e.0 == "nin" && TextList(e.1))
  }

  ghost predicate GoodSpec(spec: Dict<string, Value>) {
    spec != [] && DistinctKeys(spec) && forall i :: 0 <= i < |spec| ==> GoodEntry(spec[i])
  }

  ghost predicate GoodFilter(f: ApiFilter) {
    match f
    case Plain(v) => v.Num? || (v.Str? && v.s != "") || TextList(v)
    case Ops(spec) => GoodSpec(spec)
  }

  ghost predicate Single(f: ApiFilter) {
    GoodFilter(f) && (f.Ops? ==> |f.spec| == 1)
  }

  lemma ConvertIsSingle(c: RawCondition, profiles: map<string, Profile>, tools: TextTools)
    ensures var f := Convert(c, profiles, tools).0;
            f.Some? ==> Single(f.value) && c.field in profiles
  {
    if c.field in profiles && profiles[c.field].kind.TextKind? {
      var values := Distinct(Resolve(c.field, c.textValues, profiles[c.field], tools).0);
      forall i | 0 <= i < |values| ensures values[i] != "" {
        assert values[i] in values;
      }
    }
  }

  lemma ParseGood(e: (string, Value))
    requires GoodEntry(e)
    ensures CheckOperator(e.0, e.1) == Ok((ParseOp(e.0).value, e.1))
    ensures ParseOp(e.0) == Some(Gt) <==> e.0 == "gt"
    ensures ParseOp(e.0) == Some(Gte) <==> e.0 == "gte"
    ensures ParseOp(e.0) == Some(Lt) <==> e.0 == "lt"
    ensures ParseOp(e.0) == Some(Lte) <==> e.0 == "lte"
    ensures ParseOp(e.0) == Some(Nin) <==> e.0 == "nin"
  {
    assert e.0 == "nin" || e.0 == "gt" || e.0 == "gte" || e.0 == "lt" || e.0 == "lte";
  }

  lemma GoodKeysParseApart(a: (string, Value), b: (string, Value))
    requires GoodEntry(a) && GoodEntry(b) && a.0 != b.0
    ensures ParseOp(a.0) != ParseOp(b.0)
  {
    ParseGood(a);
    ParseGood(b);
  }

  ghost predicate EntryHolds(e: (string, Value), value: Value) {
    ParseOp(e.0).Some? && Check(ParseOp(e.0).value, e.1, value)
  }

  lemma MeansGoodSpec(spec: Dict<string, Value>, value: Value)
    requires GoodSpec(spec)
    ensures Means(Ops(spec), value) <==> forall i :: 0 <= i < |spec| ==> EntryHolds(spec[i], value)
  {
    forall i | 0 <= i < |spec| ensures !Overridden(spec, i) && ParseOp(spec[i].0).Some? {
      ParseGood(spec[i]);
      forall j | i < j < |spec| ensures ParseOp(spec[j].0) != ParseOp(spec[i].0) {
        GoodKeysParseApart(spec[i], spec[j]);
      }
    }
    if Means(Ops(spec), value) {
      forall i | 0 <= i < |spec| ensures EntryHolds(spec[i], value) {
        assert !Overridden(spec, i);
      }
    }
  }

  // ---- The dictionary holds exactly the kept conditions ----

  ghost predicate Within(single: ApiFilter, whole: ApiFilter) {
    if single.Ops? then whole.Ops? && single.spec != [] && single.spec[0] in whole.spec else whole == single
  }

  ghost predicate Backed(name: string, whole: ApiFilter, kept: Kept) {
    if whole.Ops? then forall i :: 0 <= i < |whole.spec| ==> (name, Ops([whole.spec[i]])) in kept
    else (name, whole) in kept
  }

  ghost predicate Represents(filters: Dict<string, ApiFilter>, kept: Kept) {
    && DistinctKeys(filters)
    && (forall i :: 0 <= i < |filters| ==> GoodFilter(filters[i].1) && Backed(filters[i].0, filters[i].1, kept))
    && forall k :: 0 <= k < |kept| ==> Single(kept[k].1) && Covered(filters, kept[k].0, kept[k].1)
  }

  ghost predicate Covered(filters: Dict<string, ApiFilter>, name: string, f: ApiFilter) {
    Get(filters, name).Some? && Within(f, Get(filters, name).value)
  }

  /** A backed condition of the field exists. */
  lemma SomeKept(name: string, whole: ApiFilter, kept: Kept)
    requires GoodFilter(whole) && Backed(name, whole, kept)
    ensures exists k ::
      0 <= k < |kept| && kept[k].0 == name && Within(kept[k].1, whole) && (kept[k].1.Ops? <==> whole.Ops?)
  {
    var single := if whole.Ops? then Ops([whole.spec[0]]) else whole;
    assert (name, single) in kept;
  }

  lemma {:induction false} MergeAcceptsCompatible(filters: Dict<string, ApiFilter>, kept: Kept, name: string,
                                                  f: ApiFilter)
    requires Represents(filters, kept) && Single(f)
    ensures Compatible(kept, name, f) <==>
              match Get(filters, name)
              case None => true
              case Some(current) => current.Ops? && f.Ops? && !SharesKey(current.spec, f.spec)
  {
    match Get(filters, name) {
      case None =>
        forall k | 0 <= k < |kept| ensures kept[k].0 != name {
          assert Covered(filters, kept[k].0, kept[k].1);
        }
      case Some(current) =>
        var at := GetWitness(filters, name);
        SomeKept(name, current, kept);
        if current.Ops? && f.Ops? && SharesKey(current.spec, f.spec) {
          SharedKeyKept(current, kept, name, f);
        }
        if current.Ops? && f.Ops? && !SharesKey(current.spec, f.spec) {
          forall k | 0 <= k < |kept| && kept[k].0 == name
            ensures kept[k].1.Ops? && !SharesKey(kept[k].1.spec, f.spec)
          {
            assert Covered(filters, kept[k].0, kept[k].1) && Single(kept[k].1);
            var e := kept[k].1.spec[0];
            var i :| 0 <= i < |current.spec| && current.spec[i] == e;
            assert !HasKey(current.spec, f.spec[0].0);
            assert current.spec[i].0 != f.spec[0].0;
          }
        }
    }
  }

  lemma SharedKeyKept(current: ApiFilter, kept: Kept, name: string, f: ApiFilter)
    requires current.Ops? && Backed(name, current, kept) && Single(f) && f.Ops? && SharesKey(current.spec, f.spec)
    ensures !Compatible(kept, name, f)
  {
    var i :| 0 <= i < |current.spec| && current.spec[i].0 == f.spec[0].0;
    assert (name, Ops([current.spec[i]])) in kept;
    var k :| 0 <= k < |kept| && kept[k] == (name, Ops([current.spec[i]]));
    assert kept[k].1.spec[0].0 == f.spec[0].0;
    assert HasKey(kept[k].1.spec, f.spec[0].0);
  }

  lemma {:induction false} UpdateSingle(current: Dict<string, Value>, e: (string, Value))
    requires !HasKey(current, e.0)
    ensures Update(current, [e]) == current + [e]
  {
    assert [e][1..] == [];
    assert Put(current, e.0, e.1) == current + [e];
    assert Update(current, [e]) == Update(Put(current, e.0, e.1), []);
  }

  /** The entry a compatible condition leaves for its field. */
  function Joined(current: Option<ApiFilter>, f: ApiFilter): ApiFilter {
    if current.Some? && current.value.Ops? && f.Ops? then Ops(current.value.spec + f.spec) else f
  }

  lemma {:induction false} MergeJoins(filters: Dict<string, ApiFilter>, kept: Kept, name: string, f: ApiFilter)
    requires Represents(filters, kept) && Single(f) && Compatible(kept, name, f)
    ensures Merge(filters, name, f) == (Put(filters, name, Joined(Get(filters, name), f)), [])
    ensures GoodFilter(Joined(Get(filters, name), f))
    ensures Get(filters, name).Some? ==> Get(filters, name).value.Ops? && f.Ops?
  {
    MergeAcceptsCompatible(filters, kept, name, f);
    if Get(filters, name).Some? {
      var at := GetWitness(filters, name);
      var current := Get(filters, name).value;
      assert f.spec == [f.spec[0]];
      assert !HasKey(current.spec, f.spec[0].0);
      UpdateSingle(current.spec, f.spec[0]);
      var joined := current.spec + f.spec;
      forall i, j | 0 <= i < j < |joined| ensures joined[i].0 != joined[j].0 {
        if j == |current.spec| { assert current.spec[i].0 != f.spec[0].0; }
      }
    }
  }

  lemma JoinedIsBacked(current: Option<ApiFilter>, kept: Kept, name: string, f: ApiFilter)
    requires Single(f) && (current.Some? ==> current.value.Ops? && f.Ops? && Backed(name, current.value, kept))
    ensures Backed(name, Joined(current, f), kept + [(name, f)])
  {
    var joined, kept' := Joined(current, f), kept + [(name, f)];
    assert kept'[|kept|] == (name, f);
    if joined.Ops? {
      forall i | 0 <= i < |joined.spec| ensures (name, Ops([joined.spec[i]])) in kept' {
        if current.Some? && i < |current.value.spec| {
          assert (name, Ops([current.value.spec[i]])) in kept;
        } else {
          assert f.spec == [joined.spec[i]];
        }
      }
    }
  }

  lemma MergeKeepsRepresents(filters: Dict<string, ApiFilter>, kept: Kept, name: string, f: ApiFilter)
    requires Represents(filters, kept) && Single(f) && Compatible(kept, name, f)
    ensures Represents(Merge(filters, name, f).0, kept + [(name, f)])
  {
    var current := Get(filters, name);
    var joined, kept' := Joined(current, f), kept + [(name, f)];
    MergeJoins(filters, kept, name, f);
    if current.Some? { var at := GetWitness(filters, name); }
    var merged := Put(filters, name, joined);
    PutKeepsDistinct(filters, name, joined);
    assert kept'[|kept|] == (name, f);
    JoinedIsBacked(current, kept, name, f);
    forall i | 0 <= i < |merged| ensures GoodFilter(merged[i].1) && Backed(merged[i].0, merged[i].1, kept') {
      if i < |filters| && filters[i].0 != name { assert Backed(filters[i].0, filters[i].1, kept); }
    }
    forall k | 0 <= k < |kept'| ensures Single(kept'[k].1) && Covered(merged, kept'[k].0, kept'[k].1) {
      GetAfterPut(filters, name, joined, kept'[k].0);
      if k < |kept| {
        assert Covered(filters, kept[k].0, kept[k].1);
      }
    }
  }

  lemma {:induction false} ToFiltersRepresents(raw: seq<RawCondition>, profiles: map<string, Profile>, tools: TextTools)
    ensures Represents(ToFilters(raw, profiles, tools).0, KeptConditions(raw, profiles, tools))
    ensures forall k :: 0 <= k < |KeptConditions(raw, profiles, tools)| ==>
      KeptConditions(raw, profiles, tools)[k].0 in profiles
    decreases |raw|
  {
    if raw != [] {
      var front, c := raw[..|raw| - 1], raw[|raw| - 1];
      ToFiltersRepresents(front, profiles, tools);
      ConvertIsSingle(c, profiles, tools);
      var filters, kept := ToFilters(front, profiles, tools).0, KeptConditions(front, profiles, tools);
      var f := Convert(c, profiles, tools).0;
      if f.Some? {
        MergeAcceptsCompatible(filters, kept, c.field, f.value);
        if Compatible(kept, c.field, f.value) {
          MergeKeepsRepresents(filters, kept, c.field, f.value);
        }
      }
    }
  }

  // ---- Meaning ----

  lemma CoveredMeans(name: string, f: ApiFilter, whole: ApiFilter, value: Value)
    requires Single(f) && GoodFilter(whole) && Within(f, whole) && Means(whole, value)
    ensures Means(f, value)
  {
    if f.Ops? {
      MeansGoodSpec(whole.spec, value);
      MeansGoodSpec(f.spec, value);
      var i :| 0 <= i < |whole.spec| && whole.spec[i] == f.spec[0];
      assert EntryHolds(whole.spec[i], value);
    }
  }

  lemma BackedMeans(name: string, whole: ApiFilter, kept: Kept, metadata: map<string, Value>)
    requires GoodFilter(whole) && Backed(name, whole, kept) && Satisfies(kept, metadata)
    ensures Means(whole, Field(metadata, name))
  {
    var value := Field(metadata, name);
    if whole.Ops? {
      MeansGoodSpec(whole.spec, value);
      forall i | 0 <= i < |whole.spec| ensures EntryHolds(whole.spec[i], value) {
        assert (name, Ops([whole.spec[i]])) in kept;
        MeansGoodSpec([whole.spec[i]], value);
        assert [whole.spec[i]][0] == whole.spec[i];
      }
    }
  }

  lemma RepresentsMeaning(filters: Dict<string, ApiFilter>, kept: Kept, metadata: map<string, Value>)
    requires Represents(filters, kept)
    ensures AllMean(filters, metadata) <==> Satisfies(kept, metadata)
  {
    if AllMean(filters, metadata) {
      forall k | 0 <= k < |kept| ensures Means(kept[k].1, Field(metadata, kept[k].0)) {
        assert Covered(filters, kept[k].0, kept[k].1) && Single(kept[k].1);
        var i := GetWitness(filters, kept[k].0);
        CoveredMeans(kept[k].0, kept[k].1, filters[i].1, Field(metadata, kept[k].0));
      }
    }
    if Satisfies(kept, metadata) {
      forall i | 0 <= i < |filters| ensures Means(filters[i].1, Field(metadata, filters[i].0)) {
        BackedMeans(filters[i].0, filters[i].1, kept, metadata);
      }
    }
  }

  lemma {:induction false} FilterMeansKept(raw: seq<RawCondition>, profiles: map<string, Profile>, tools: TextTools,
                                           allowed: seq<string>, metadata: map<string, Value>)
    requires Build(ToFilters(raw, profiles, tools).0, allowed).Accepted?
    ensures MatchesFilter(metadata, Build(ToFilters(raw, profiles, tools).0, allowed).filter) <==>
              Satisfies(KeptConditions(raw, profiles, tools), metadata)
  {
    var filters, kept := ToFilters(raw, profiles, tools).0, KeptConditions(raw, profiles, tools);
    ToFiltersRepresents(raw, profiles, tools);
    BuildPreservesMeaning(filters, allowed, metadata);
    RepresentsMeaning(filters, kept, metadata);
  }

  // ---- What the answer asks for, said of its raw conditions ----

  /** The text, stripped, names a value: the catalogue's, up to case, of which the last counts, or
      itself where there is no catalogue to check against. */
  ghost predicate Names(values: seq<string>, text: string, v: string, tools: TextTools) {
    && v != ""
    && if values == [] then v == tools.strip(text)
       else
         exists i :: 0 <= i < |values| && LastNamed(values, i, tools.fold(tools.strip(text)), tools) && values[i] == v
  }

  ghost predicate LastNamed(values: seq<string>, i: nat, folded: string, tools: TextTools)
    requires i < |values|
  {
    tools.fold(values[i]) == folded && forall j :: i < j < |values| ==> tools.fold(values[j]) != folded
  }

  ghost predicate Wanted(c: RawCondition, profile: Profile, v: string, tools: TextTools) {
    exists i :: 0 <= i < |c.textValues| && Names(profile.values, c.textValues[i], v, tools)
  }

  /** The catalogue supports the condition. */
  ghost predicate Asks(c: RawCondition, profiles: map<string, Profile>, tools: TextTools) {
    && c.field in profiles
    && if profiles[c.field].kind.TextKind? then
         && (c.op == "eq" || c.op == "in" || c.op == "ne" || c.op == "nin")
         && exists v :: Wanted(c, profiles[c.field], v, tools)
       else
         && (c.op == "eq" || c.op == "gt" || c.op == "gte" || c.op == "lt" || c.op == "lte")
         && c.number.Num?
  }

  ghost predicate HasText(value: Value, s: string) {
    value == Str(s) || (value.List? && exists k :: 0 <= k < |value.items| && value.items[k] == Str(s))
  }

  /** True counts as 1 and False as 0. */
  ghost predicate IsTheNumber(value: Value, n: real) {
    value == Num(n) || (value.Bool? && n == if value.b then 1.0 else 0.0)
  }

  ghost predicate HasNumber(value: Value, n: real) {
    || IsTheNumber(value, n)
    || (value.List? && exists k :: 0 <= k < |value.items| && IsTheNumber(value.items[k], n))
  }

  /** What the condition demands of an item's value. */
  ghost predicate Demands(c: RawCondition, profile: Profile, tools: TextTools, value: Value)
    requires profile.kind.NumberKind? ==> c.number.Num?
  {
    if profile.kind.TextKind? then
      var wanted := exists v :: Wanted(c, profile, v, tools) && HasText(value, v);
      if c.op == "eq" || c.op == "in" then wanted else !wanted
    else if c.op == "eq" then HasNumber(value, c.number.n)
    else
      && value.Num?
      && (c.op == "gt" ==> value.n > c.number.n)
      && (c.op == "gte" ==> value.n >= c.number.n)
      && (c.op == "lt" ==> value.n < c.number.n)
      && (c.op == "lte" ==> value.n <= c.number.n)
  }

  lemma {:induction false} KnownIs(values: seq<string>, folded: string, v: string, tools: TextTools)
    ensures KnownValue(values, folded, tools) == Some(v) <==>
              exists i :: 0 <= i < |values| && LastNamed(values, i, folded, tools) && values[i] == v
    decreases |values|
  {
    if values != [] {
      var front := values[..|values| - 1];
      if tools.fold(values[|values| - 1]) == folded {
        assert LastNamed(values, |values| - 1, folded, tools);
      } else {
        KnownIs(front, folded, v, tools);
        forall i | 0 <= i < |front|
          ensures LastNamed(front, i, folded, tools) <==> LastNamed(values, i, folded, tools)
        {
          assert forall j :: i < j < |front| ==> front[j] == values[j];
        }
      }
    }
  }

  lemma {:induction false} ResolveIs(name: string, texts: seq<string>, profile: Profile, tools: TextTools, v: string)
    requires v != ""
    ensures v in Resolve(name, texts, profile, tools).0 <==>
              exists i :: 0 <= i < |texts| && Names(profile.values, texts[i], v, tools)
  {
    if texts != [] {
      var rest := texts[1..];
      ResolveIs(name, rest, profile, tools, v);
      var folded := tools.fold(tools.strip(texts[0]));
      KnownIs(profile.values, folded, v, tools);
      assert forall i :: 0 < i < |texts| ==> texts[i] == rest[i - 1];
      assert forall i :: 0 <= i < |rest| ==> rest[i] == texts[i + 1];
    }
  }

  lemma {:induction false} WantedIs(c: RawCondition, profile: Profile, tools: TextTools, v: string)
    ensures v in Distinct(Resolve(c.field, c.textValues, profile, tools).0) <==> Wanted(c, profile, v, tools)
  {
    if v != "" { ResolveIs(c.field, c.textValues, profile, tools, v); }
  }

  /** A condition is converted exactly when it asks for something. */
  lemma ConvertIsAsked(c: RawCondition, profiles: map<string, Profile>, tools: TextTools)
    ensures Convert(c, profiles, tools).0.Some? <==> Asks(c, profiles, tools)
  {
    if c.field in profiles {
      var values := Distinct(Resolve(c.field, c.textValues, profiles[c.field], tools).0);
      forall v ensures v in values <==> Wanted(c, profiles[c.field], v, tools) {
        WantedIs(c, profiles[c.field], tools, v);
      }
      assert values != [] ==> values[0] in values;
    }
  }

  /** and its filter passes exactly the values the condition demands. */
  lemma ConvertDemands(c: RawCondition, profiles: map<string, Profile>, tools: TextTools, value: Value)
    requires Asks(c, profiles, tools)
    ensures Convert(c, profiles, tools).0.Some?
    ensures Means(Convert(c, profiles, tools).0.value, value) <==> Demands(c, profiles[c.field], tools, value)
  {
    ConvertIsAsked(c, profiles, tools);
    ConvertIsSingle(c, profiles, tools);
    if profiles[c.field].kind.TextKind? {
      TextDemands(c, profiles, tools, value);
    } else {
      NumberDemands(c, profiles, tools, value);
    }
  }

  lemma NumberDemands(c: RawCondition, profiles: map<string, Profile>, tools: TextTools, value: Value)
    requires Asks(c, profiles, tools) && profiles[c.field].kind.NumberKind?
    ensures Means(Convert(c, profiles, tools).0.value, value) <==> Demands(c, profiles[c.field], tools, value)
  {
    if c.op == "eq" {
      CheckIs(Eq, c.number, value);
    } else {
      var spec := [(c.op, c.number)];
      ParseGood(spec[0]);
      MeansGoodSpec(spec, value);
      CheckIs(ParseOp(c.op).value, c.number, value);
    }
  }

  lemma CarriesTexts(value: Value, values: seq<string>)
    ensures CarriesSome(value, Texts(values)) <==> exists v :: v in values && HasText(value, v)
  {
    var xs := Texts(values);
    forall v ensures Carries(value, Str(v)) <==> HasText(value, v) {
    }
    if i :| 0 <= i < |xs| && Carries(value, xs[i]) {
      assert values[i] in values && HasText(value, values[i]);
    }
    if v :| v in values && HasText(value, v) {
      var i :| 0 <= i < |values| && values[i] == v;
      assert Carries(value, xs[i]);
    }
  }

  lemma TextDemands(c: RawCondition, profiles: map<string, Profile>, tools: TextTools, value: Value)
    requires Asks(c, profiles, tools) && profiles[c.field].kind.TextKind?
    ensures Convert(c, profiles, tools).0.Some?
    ensures Means(Convert(c, profiles, tools).0.value, value) <==> Demands(c, profiles[c.field], tools, value)
  {
    ConvertIsAsked(c, profiles, tools);
    ConvertIsSingle(c, profiles, tools);
    var profile := profiles[c.field];
    var values := Distinct(Resolve(c.field, c.textValues, profile, tools).0);
    forall v ensures v in values <==> Wanted(c, profile, v, tools) {
      WantedIs(c, profile, tools, v);
    }
    CarriesTexts(value, values);
    forall i | 0 <= i < |values| ensures values[i] != "" {
      assert values[i] in values;
    }
    TextFilterMeans(values, value);
  }

  lemma TextFilterMeans(values: seq<string>, value: Value)
    requires values != [] && forall i :: 0 <= i < |values| ==> values[i] != ""
    ensures Means(Plain(if |values| == 1 then Str(values[0]) else List(Texts(values))), value) <==>
              CarriesSome(value, Texts(values))
    ensures Means(Ops([("nin", List(Texts(values)))]), value) <==> !CarriesSome(value, Texts(values))
  {
    var list := List(Texts(values));
    CheckIs(In, list, value);
    CheckIs(Nin, list, value);
    CheckIs(Eq, Str(values[0]), value);
    var spec := [("nin", list)];
    ParseGood(spec[0]);
    MeansGoodSpec(spec, value);
    assert Means(Ops(spec), value) <==> EntryHolds(spec[0], value);
    assert Texts(values)[0] == Str(values[0]);
  }

  // ---- The raw conditions kept ----

  /** Both are ranges of the field's numbers, by different operators. */
  ghost predicate Joinable(a: RawCondition, b: RawCondition, profile: Profile) {
    profile.kind.NumberKind? && a.op != "eq" && b.op != "eq" && a.op != b.op
  }

  ghost predicate Joins(kept: seq<RawCondition>, c: RawCondition, profiles: map<string, Profile>)
    requires c.field in profiles
  {
    forall k :: 0 <= k < |kept| && kept[k].field == c.field ==> Joinable(kept[k], c, profiles[c.field])
  }

  ghost function KeptRaw(raw: seq<RawCondition>, profiles: map<string, Profile>, tools: TextTools): seq<RawCondition>
    decreases |raw|
  {
    if raw == [] then []
    else
      var kept := KeptRaw(raw[..|raw| - 1], profiles, tools);
      var c := raw[|raw| - 1];
      if Asks(c, profiles, tools) && Joins(kept, c, profiles) then kept + [c] else kept
  }

  ghost predicate Converted(kept: Kept, raw: seq<RawCondition>, profiles: map<string, Profile>, tools: TextTools) {
    && |kept| == |raw|
    && forall k :: 0 <= k < |raw| ==>
         Asks(raw[k], profiles, tools) && Some(kept[k].1) == Convert(raw[k], profiles, tools).0
         && kept[k].0 == raw[k].field
  }

  lemma JoinableIs(a: RawCondition, b: RawCondition, profiles: map<string, Profile>, tools: TextTools)
    requires Asks(a, profiles, tools) && Asks(b, profiles, tools) && a.field == b.field
    ensures var f, g := Convert(a, profiles, tools).0, Convert(b, profiles, tools).0;
            && f.Some? && g.Some?
            && (Joinable(a, b, profiles[a.field]) <==>
                  f.value.Ops? && g.value.Ops? && !SharesKey(f.value.spec, g.value.spec))
  {
    ConvertIsAsked(a, profiles, tools);
    ConvertIsAsked(b, profiles, tools);
    var f, g := Convert(a, profiles, tools).0.value, Convert(b, profiles, tools).0.value;
    if f.Ops? && g.Ops? {
      assert f.spec[0].0 == g.spec[0].0 ==> HasKey(f.spec, g.spec[0].0);
    }
  }

  lemma {:induction false} KeptIsConverted(raw: seq<RawCondition>, profiles: map<string, Profile>, tools: TextTools)
    ensures Converted(KeptConditions(raw, profiles, tools), KeptRaw(raw, profiles, tools), profiles, tools)
    decreases |raw|
  {
    if raw != [] {
      var front, c := raw[..|raw| - 1], raw[|raw| - 1];
      KeptIsConverted(front, profiles, tools);
      ConvertIsAsked(c, profiles, tools);
      if Asks(c, profiles, tools) {
        var kept, rawKept := KeptConditions(front, profiles, tools), KeptRaw(front, profiles, tools);
        forall k | 0 <= k < |kept| && kept[k].0 == c.field
          ensures Joinable(rawKept[k], c, profiles[c.field]) <==>
                    kept[k].1.Ops? && Convert(c, profiles, tools).0.value.Ops?
                    && !SharesKey(kept[k].1.spec, Convert(c, profiles, tools).0.value.spec)
        {
          JoinableIs(rawKept[k], c, profiles, tools);
        }
      }
    }
  }

  /** An item's metadata meets what each of the conditions demands of its field. */
  ghost predicate Meets(kept: seq<RawCondition>, profiles: map<string, Profile>, tools: TextTools,
                        metadata: map<string, Value>)
  {
    forall k :: 0 <= k < |kept| ==>
      Asks(kept[k], profiles, tools)
      && Demands(kept[k], profiles[kept[k].field], tools, Field(metadata, kept[k].field))
  }

  /** When the compiled filter is accepted, an item passes it exactly when its metadata meets what
      every kept condition of the answer demands. */
  lemma {:induction false} FilterMeansAnswer(raw: seq<RawCondition>, profiles: map<string, Profile>, tools: TextTools,
                                             allowed: seq<string>, metadata: map<string, Value>)
    requires Build(ToFilters(raw, profiles, tools).0, allowed).Accepted?
    ensures MatchesFilter(metadata, Build(ToFilters(raw, profiles, tools).0, allowed).filter) <==>
              Meets(KeptRaw(raw, profiles, tools), profiles, tools, metadata)
  {
    FilterMeansKept(raw, profiles, tools, allowed, metadata);
    KeptIsConverted(raw, profiles, tools);
    var kept, rawKept := KeptConditions(raw, profiles, tools), KeptRaw(raw, profiles, tools);
    forall k | 0 <= k < |kept|
      ensures Means(kept[k].1, Field(metadata, kept[k].0)) <==>
                Demands(rawKept[k], profiles[rawKept[k].field], tools, Field(metadata, rawKept[k].field))
    {
      ConvertDemands(rawKept[k], profiles, tools, Field(metadata, rawKept[k].field));
    }
  }

  /** A condition the catalogue supports is kept when it is its field's first, or a range by an
      operator no earlier condition of the field has. */
  lemma {:induction false} FirstIsKept(raw: seq<RawCondition>, profiles: map<string, Profile>, tools: TextTools,
                                       i: nat)
    requires i < |raw| && Asks(raw[i], profiles, tools)
    requires forall j :: 0 <= j < i && raw[j].field == raw[i].field && Asks(raw[j], profiles, tools) ==>
      Joinable(raw[j], raw[i], profiles[raw[i].field])
    ensures raw[i] in KeptRaw(raw, profiles, tools)
    decreases |raw|
  {
    var front := raw[..|raw| - 1];
    if i < |front| {
      FirstIsKept(front, profiles, tools, i);
    } else {
      KeptIsRaw(front, profiles, tools);
      var kept := KeptRaw(front, profiles, tools);
      forall k | 0 <= k < |kept| && kept[k].field == raw[i].field
        ensures Joinable(kept[k], raw[i], profiles[raw[i].field])
      {
        assert kept[k] in kept;
        var j :| 0 <= j < |front| && front[j] == kept[k];
        assert raw[j] == kept[k];
      }
    }
  }

  /** Only supported conditions of the answer are kept, and those of one field are joinable. */
  lemma {:induction false} KeptIsRaw(raw: seq<RawCondition>, profiles: map<string, Profile>, tools: TextTools)
    ensures var kept := KeptRaw(raw, profiles, tools);
            && (forall c :: c in kept ==> c in raw && Asks(c, profiles, tools))
            && forall i, j :: 0 <= i < j < |kept| && kept[i].field == kept[j].field ==>
                 Asks(kept[j], profiles, tools) && Joinable(kept[i], kept[j], profiles[kept[j].field])
    decreases |raw|
  {
    if raw != [] {
      var front := raw[..|raw| - 1];
      KeptIsRaw(front, profiles, tools);
      assert raw == front + [raw[|raw| - 1]];
    }
  }

  // ---- What is dropped is noted ----

  /** The text names nothing but a blank. */
  ghost predicate NamesBlank(values: seq<string>, text: string, tools: TextTools) {
    if values == [] then tools.strip(text) == ""
    else exists i :: 0 <= i < |values| && LastNamed(values, i, tools.fold(tools.strip(text)), tools) && values[i] == ""
  }

  /** A text condition without texts, or with blank ones alone. */
  ghost predicate Silent(c: RawCondition, profiles: map<string, Profile>, tools: TextTools) {
    && c.field in profiles && profiles[c.field].kind.TextKind?
    && (c.op == "eq" || c.op == "in" || c.op == "ne" || c.op == "nin")
    && forall i :: 0 <= i < |c.textValues| ==> NamesBlank(profiles[c.field].values, c.textValues[i], tools)
  }

  lemma {:induction false} ResolvesToNothing(name: string, texts: seq<string>, profile: Profile, tools: TextTools)
    ensures Resolve(name, texts, profile, tools).1 == []
            && (forall v :: v in Resolve(name, texts, profile, tools).0 ==> v == "") <==>
              forall i :: 0 <= i < |texts| ==> NamesBlank(profile.values, texts[i], tools)
  {
    if texts != [] {
      var rest := texts[1..];
      var (values, notes) := Resolve(name, rest, profile, tools);
      ResolvesToNothing(name, rest, profile, tools);
      var known := KnownValue(profile.values, tools.fold(tools.strip(texts[0])), tools);
      KnownIs(profile.values, tools.fold(tools.strip(texts[0])), "", tools);
      assert (forall i :: 0 <= i < |texts| ==> NamesBlank(profile.values, texts[i], tools)) <==>
               NamesBlank(profile.values, texts[0], tools)
               && forall i :: 0 <= i < |rest| ==> NamesBlank(profile.values, rest[i], tools) by {
        assert forall i :: 0 < i < |texts| ==> texts[i] == rest[i - 1];
        assert forall i :: 0 <= i < |rest| ==> rest[i] == texts[i + 1];
      }
      if known.Some? || profile.values == [] {
        var first := if known.Some? then known.value else tools.strip(texts[0]);
        assert Resolve(name, texts, profile, tools) == ([first] + values, notes);
        var all := [first] + values;
        assert forall v :: v in all <==> v == first || v in values;
        assert first in all;
        assert (forall v :: v in all ==> v == "") <==> first == "" && forall v :: v in values ==> v == "";
        assert NamesBlank(profile.values, texts[0], tools) <==> first == "";
      } else {
        assert Resolve(name, texts, profile, tools).1 == [NoItemsWith(name, texts[0])] + notes;
        assert !NamesBlank(profile.values, texts[0], tools);
      }
    }
  }

  lemma {:induction false} DistinctBlanks(values: seq<string>)
    ensures Distinct(values) == [] <==> forall v :: v in values ==> v == ""
    decreases |values|
  {
    if values != [] {
      var front, last := values[..|values| - 1], values[|values| - 1];
      DistinctBlanks(front);
      assert forall v :: v in values <==> v in front || v == last by { assert values == front + [last]; }
      assert last in values;
    }
  }

  lemma {:induction false} UnaskedIsNoted(c: RawCondition, profiles: map<string, Profile>, tools: TextTools)
    requires !Asks(c, profiles, tools)
    ensures Convert(c, profiles, tools).1 == [] <==> Silent(c, profiles, tools)
  {
    ConvertIsAsked(c, profiles, tools);
    if c.field in profiles && profiles[c.field].kind.TextKind? {
      ResolvesToNothing(c.field, c.textValues, profiles[c.field], tools);
      DistinctBlanks(Resolve(c.field, c.textValues, profiles[c.field], tools).0);
    }
  }

  lemma {:induction false} SilentAsksNothing(c: RawCondition, profiles: map<string, Profile>, tools: TextTools)
    requires Silent(c, profiles, tools)
    ensures !Asks(c, profiles, tools)
  {
    var profile := profiles[c.field];
    ConvertIsAsked(c, profiles, tools);
    ResolvesToNothing(c.field, c.textValues, profile, tools);
    DistinctBlanks(Resolve(c.field, c.textValues, profile, tools).0);
  }

  /** A condition that is not kept leaves a note, unless it is text without a text that is not blank. */
  lemma {:induction false} DroppedIsNoted(front: seq<RawCondition>, c: RawCondition, profiles: map<string, Profile>,
                                          tools: TextTools)
    requires KeptRaw(front + [c], profiles, tools) == KeptRaw(front, profiles, tools)
    ensures ToFilters(front + [c], profiles, tools).1 == ToFilters(front, profiles, tools).1 <==>
              Silent(c, profiles, tools)
  {
    var raw := front + [c];
    assert raw[..|raw| - 1] == front && raw[|raw| - 1] == c;
    if Asks(c, profiles, tools) {
      if Silent(c, profiles, tools) { SilentAsksNothing(c, profiles, tools); }
      RejectedIsNoted(front, c, profiles, tools);
    } else {
      UnaskedIsNoted(c, profiles, tools);
      ConvertIsAsked(c, profiles, tools);
    }
  }

  /** So a condition that names no text goes without a word. */
  lemma NoTextIsSilent(tools: TextTools)
    ensures var c, profiles := RawCondition("brand", "eq", [], Null), map["brand" := Profile(TextKind, ["Nike"])];
            KeptRaw([c], profiles, tools) == [] && ToFilters([c], profiles, tools) == ([], [])
  {
    var c, profiles := RawCondition("brand", "eq", [], Null), map["brand" := Profile(TextKind, ["Nike"])];
    assert [c][..0] == [] && KeptRaw([], profiles, tools) == [];
    assert ToFilters([], profiles, tools) == ([], []);
    SilentAsksNothing(c, profiles, tools);
    DroppedIsNoted([], c, profiles, tools);
    assert [] + [c] == [c];
  }

  lemma {:induction false} RejectedIsNoted(front: seq<RawCondition>, c: RawCondition, profiles: map<string, Profile>,
                                           tools: TextTools)
    requires Asks(c, profiles, tools) && !Joins(KeptRaw(front, profiles, tools), c, profiles)
    ensures MoreThanOne(c.field) in AddCondition(ToFilters(front, profiles, tools).0, c, profiles, tools).1
  {
    var filters, kept := ToFilters(front, profiles, tools).0, KeptConditions(front, profiles, tools);
    var rawKept := KeptRaw(front, profiles, tools);
    ToFiltersRepresents(front, profiles, tools);
    ConvertIsSingle(c, profiles, tools);
    ConvertIsAsked(c, profiles, tools);
    KeptIsConverted(front, profiles, tools);
    var f := Convert(c, profiles, tools).0.value;
    var k :| 0 <= k < |rawKept| && rawKept[k].field == c.field && !Joinable(rawKept[k], c, profiles[c.field]);
    JoinableIs(rawKept[k], c, profiles, tools);
    assert !Compatible(kept, c.field, f);
    MergeAcceptsCompatible(filters, kept, c.field, f);
  }

  // ---- Acceptance ----

  ghost predicate SpecClash(spec: Dict<string, Value>) {
    exists i, j :: 0 <= i < |spec| && 0 <= j < |spec| && EntriesClash(spec[i], spec[j])
  }

  lemma ClashContradicts(spec: Dict<string, Value>)
    requires GoodSpec(spec)
    ensures Contradicts(spec) <==> SpecClash(spec)
  {
    forall i: nat, j: nat | i < |spec| && j < |spec| ensures Above(spec, i, j) <==> EntriesClash(spec[i], spec[j]) {
      AboveIsClash(spec, i, j);
    }
    if Contradicts(spec) {
      var i: nat, j: nat :| Above(spec, i, j);
      assert EntriesClash(spec[i], spec[j]);
    }
    if i, j :| 0 <= i < |spec| && 0 <= j < |spec| && EntriesClash(spec[i], spec[j]) {
      assert Above(spec, i, j);
    }
  }

  lemma GoodSpecEntries(spec: Dict<string, Value>)
    requires GoodSpec(spec)
    ensures GoodEntries(spec)
  {
    forall i | 0 <= i < |spec| ensures ParseOp(spec[i].0).Some? && GoodOperand(ParseOp(spec[i].0).value, spec[i].1) {
      ParseGood(spec[i]);
    }
  }

  lemma AboveIsClash(spec: Dict<string, Value>, i: nat, j: nat)
    requires GoodSpec(spec) && i < |spec| && j < |spec|
    ensures Above(spec, i, j) <==> EntriesClash(spec[i], spec[j])
  {
    OneCounts(spec, i);
    OneCounts(spec, j);
  }

  lemma OneCounts(spec: Dict<string, Value>, i: nat)
    requires GoodSpec(spec) && i < |spec|
    ensures Counts(spec, i, Gt) <==> spec[i].0 == "gt"
    ensures Counts(spec, i, Gte) <==> spec[i].0 == "gte"
    ensures Counts(spec, i, Lt) <==> spec[i].0 == "lt"
    ensures Counts(spec, i, Lte) <==> spec[i].0 == "lte"
  {
    ParseGood(spec[i]);
    forall j | i < j < |spec| ensures ParseOp(spec[j].0) != ParseOp(spec[i].0) {
      GoodKeysParseApart(spec[i], spec[j]);
    }
  }

  lemma GoodConditionRefused(f: ApiFilter)
    requires GoodFilter(f)
    ensures ConditionOf(f).Err? <==> f.Ops? && SpecClash(f.spec)
  {
    AcceptedIsWellFormed(f);
    if f.Ops? {
      GoodSpecEntries(f.spec);
      ClashContradicts(f.spec);
    }
  }

  lemma KeptClashIsWritten(filters: Dict<string, ApiFilter>, kept: Kept, a: nat, b: nat)
    requires Represents(filters, kept) && a < |kept| && b < |kept| && kept[a].0 == kept[b].0
    requires Clash(kept[a].1, kept[b].1)
    ensures exists i :: 0 <= i < |filters| && filters[i].1.Ops? && SpecClash(filters[i].1.spec)
  {
    assert Covered(filters, kept[a].0, kept[a].1) && Covered(filters, kept[b].0, kept[b].1);
    var i := GetWitness(filters, kept[a].0);
    var spec := filters[i].1.spec;
    var x :| 0 <= x < |spec| && spec[x] == kept[a].1.spec[0];
    var y :| 0 <= y < |spec| && spec[y] == kept[b].1.spec[0];
    assert EntriesClash(spec[x], spec[y]);
  }

  lemma ClashIsKept(filters: Dict<string, ApiFilter>, kept: Kept)
    requires Represents(filters, kept)
    ensures EmptyRangeKept(kept) <==>
              exists i :: 0 <= i < |filters| && filters[i].1.Ops? && SpecClash(filters[i].1.spec)
  {
    if a, b :| 0 <= a < |kept| && 0 <= b < |kept| && kept[a].0 == kept[b].0 && Clash(kept[a].1, kept[b].1) {
      KeptClashIsWritten(filters, kept, a, b);
    }
  }

  lemma {:induction false} RefusedOnKeptClash(raw: seq<RawCondition>, profiles: map<string, Profile>, tools: TextTools,
                                              allowed: seq<string>)
    requires forall name :: name in profiles ==> name in allowed
    ensures Build(ToFilters(raw, profiles, tools).0, allowed).Refused? <==>
              EmptyRangeKept(KeptConditions(raw, profiles, tools))
  {
    var filters, kept := ToFilters(raw, profiles, tools).0, KeptConditions(raw, profiles, tools);
    ToFiltersRepresents(raw, profiles, tools);
    ErrorsEmpty(filters, allowed);
    ClashIsKept(filters, kept);
    forall i | 0 <= i < |filters|
      ensures FieldCondition(filters[i].0, filters[i].1, allowed).Err? <==>
                filters[i].1.Ops? && SpecClash(filters[i].1.spec)
    {
      GoodConditionRefused(filters[i].1);
      SomeKept(filters[i].0, filters[i].1, kept);
    }
  }

  /** A lower bound of a field above an upper bound of it. */
  ghost predicate Excludes(a: RawCondition, b: RawCondition) {
    && a.field == b.field && (a.op == "gt" || a.op == "gte") && (b.op == "lt" || b.op == "lte")
    && a.number.Num? && b.number.Num? && a.number.n > b.number.n
  }

  ghost predicate SomeExclude(kept: seq<RawCondition>) {
    exists i, j :: 0 <= i < |kept| && 0 <= j < |kept| && Excludes(kept[i], kept[j])
  }

  lemma ClashIsExcluding(a: RawCondition, b: RawCondition, profiles: map<string, Profile>, tools: TextTools)
    requires Asks(a, profiles, tools) && Asks(b, profiles, tools)
    ensures var f, g := Convert(a, profiles, tools).0, Convert(b, profiles, tools).0;
            f.Some? && g.Some? && (a.field == b.field && Clash(f.value, g.value) <==> Excludes(a, b))
  {
    ConvertIsAsked(a, profiles, tools);
    ConvertIsAsked(b, profiles, tools);
  }

  /** With every profile field a filter field, the compiled filter is refused exactly when a lower
      bound kept for a field exceeds an upper bound kept for it. */
  lemma {:induction false} RefusedOnlyWhenEmpty(raw: seq<RawCondition>, profiles: map<string, Profile>,
                                                tools: TextTools, allowed: seq<string>)
    requires forall name :: name in profiles ==> name in allowed
    ensures Build(ToFilters(raw, profiles, tools).0, allowed).Refused? <==>
              SomeExclude(KeptRaw(raw, profiles, tools))
  {
    RefusedOnKeptClash(raw, profiles, tools, allowed);
    KeptIsConverted(raw, profiles, tools);
    var kept, rawKept := KeptConditions(raw, profiles, tools), KeptRaw(raw, profiles, tools);
    forall i, j | 0 <= i < |kept| && 0 <= j < |kept|
      ensures kept[i].0 == kept[j].0 && Clash(kept[i].1, kept[j].1) <==> Excludes(rawKept[i], rawKept[j])
    {
      ClashIsExcluding(rawKept[i], rawKept[j], profiles, tools);
    }
  }

  /** and what is refused could match nothing anyway. */
  lemma {:induction false} RefusedMatchesNothing(raw: seq<RawCondition>, profiles: map<string, Profile>,
                                                 tools: TextTools, metadata: map<string, Value>)
    requires SomeExclude(KeptRaw(raw, profiles, tools))
    ensures !Meets(KeptRaw(raw, profiles, tools), profiles, tools, metadata)
  {
    var kept := KeptRaw(raw, profiles, tools);
    var i, j :| 0 <= i < |kept| && 0 <= j < |kept| && Excludes(kept[i], kept[j]);
  }

  // ---- interpret ----

  /** The filters and notes `interpret` returns for an answer. */
  function Interpret(raw: seq<RawCondition>, profiles: map<string, Profile>, tools: TextTools, allowed: seq<string>)
    : (Dict<string, ApiFilter>, seq<Note>)
  {
    var (filters, ignored) := ToFilters(raw, profiles, tools);
    if Build(filters, allowed).Refused? then ([], ignored + [CouldNotApply]) else (filters, ignored)
  }

  lemma InterpretIsAccepted(raw: seq<RawCondition>, profiles: map<string, Profile>, tools: TextTools,
                            allowed: seq<string>)
    ensures Build(Interpret(raw, profiles, tools, allowed).0, allowed).Accepted?
  {
    assert Errors([], allowed) == [];
  }

  ghost predicate FromCatalogue(v: Value, profile: Profile) {
    match v
    case Str(s) => s in profile.values || profile.values == []
    case List(items) => forall i :: 0 <= i < |items| ==> FromCatalogue(items[i], profile)
    case _ => true
  }

  ghost predicate Supported(f: ApiFilter, profile: Profile) {
    match f
    case Plain(v) => FromCatalogue(v, profile)
    case Ops(spec) => forall i :: 0 <= i < |spec| ==> FromCatalogue(spec[i].1, profile)
  }

  /** The model cannot invent constraints: every kept condition is on a filter field, and every text
      in it is a value some item has (or the catalogue has none to check against). */
  lemma {:induction false} NothingInvented(raw: seq<RawCondition>, profiles: map<string, Profile>, tools: TextTools,
                                           k: nat)
    requires k < |KeptConditions(raw, profiles, tools)|
    ensures var (name, f) := KeptConditions(raw, profiles, tools)[k];
            name in profiles && Supported(f, profiles[name])
    decreases |raw|
  {
    var front := raw[..|raw| - 1];
    if k < |KeptConditions(front, profiles, tools)| {
      NothingInvented(front, profiles, tools, k);
    }
  }
}
