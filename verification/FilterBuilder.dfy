/** API filters, their Pinecone form and its meaning
    (app/services/recommendation/filter_builder.py). */
module FilterBuilder {
  import opened Dicts
  import opened Matches

  datatype Op = Eq | Ne | In | Nin | Gt | Gte | Lt | Lte

  /** A filter as users write it: a value, a list of values, or an operator object. */
  datatype ApiFilter = Plain(value: Value) | Ops(spec: Dict<string, Value>)

  datatype FilterError =
    | UnknownField | NotAValue | NoOperators | UnknownOperator | NeedsNumber | NeedsScalar | NeedsList
    | EmptyList | BadListItem | EmptyRange

  type Condition = Dict<Op, Value>
  type PineconeFilter = Dict<string, Condition>

  datatype Checked<T> = Ok(value: T) | Err(error: FilterError)

  datatype Built = Accepted(filter: PineconeFilter) | Refused(errors: seq<(string, FilterError)>)

  predicate IsScalar(v: Value) {
    v.Str? || v.Num? || v.Bool?
  }

  /** A bool is not a number here. */
  predicate IsNumber(v: Value) {
    v.Num?
  }

  predicate IsRange(op: Op) {
    op.Gt? || op.Gte? || op.Lt? || op.Lte?
  }

  /** Python's `==` between JSON values: True is 1 and False is 0. */
  predicate PyEq(a: Value, b: Value) {
    match (a, b)
    case (Bool(x), Num(n)) => n == if x then 1.0 else 0.0
    case (Num(n), Bool(x)) => n == if x then 1.0 else 0.0
    case (List(xs), List(ys)) => |xs| == |ys| && forall i :: 0 <= i < |xs| ==> PyEq(xs[i], ys[i])
    case _ => a == b
  }

  predicate Among(v: Value, items: seq<Value>) {
    exists i :: 0 <= i < |items| && PyEq(v, items[i])
  }

  function RemovePrefix(s: string): string {
    if s != "" && s[0] == '$' then s[1..] else s
  }

  function ParseOp(raw: string): Option<Op> {
    var op := RemovePrefix(raw);
    if op == "eq" then Some(Eq) else if op == "ne" then Some(Ne)
    else if op == "in" then Some(In) else if op == "nin" then Some(Nin)
    else if op == "gt" then Some(Gt) else if op == "gte" then Some(Gte)
    else if op == "lt" then Some(Lt) else if op == "lte" then Some(Lte)
    else None
  }

  function ScalarList(items: seq<Value>): Checked<Value> {
    if items == [] then Err(EmptyList)
    else if forall i :: 0 <= i < |items| ==> IsScalar(items[i]) then Ok(List(items))
    else Err(BadListItem)
  }

  /** One turn of the loop in `_operators`. */
  function CheckOperator(raw: string, operand: Value): Checked<(Op, Value)> {
    match ParseOp(raw)
    case None => Err(UnknownOperator)
    case Some(op) =>
      if IsRange(op) && !IsNumber(operand) then Err(NeedsNumber)
      else if (op.Eq? || op.Ne?) && !IsScalar(operand) then Err(NeedsScalar)
      else if op.In? || op.Nin? then
        if !operand.List? then Err(NeedsList)
        else match ScalarList(operand.items) case Err(e) => Err(e) case Ok(v) => Ok((op, v))
      else Ok((op, operand))
  }

  function CheckOperators(spec: Dict<string, Value>, condition: Condition): Checked<Condition>
    decreases |spec|
  {
    if spec == [] then Ok(condition)
    else
      match CheckOperator(spec[0].0, spec[0].1)
      case Err(e) => Err(e)
      case Ok((op, operand)) => CheckOperators(spec[1..], Put(condition, op, operand))
  }

  function Bound(condition: Condition, op: Op): Option<real> {
    var operand := Get(condition, op);
    if operand.Some? && operand.value.Num? then Some(operand.value.n) else None
  }

  /** `max((condition[k] for k in ("$gt", "$gte") if k in condition), default=None)` */
  function Low(condition: Condition): Option<real> {
    match (Bound(condition, Gt), Bound(condition, Gte))
    case (Some(x), Some(y)) => Some(if x >= y then x else y)
    case (Some(x), None) => Some(x)
    case (None, y) => y
  }

  function High(condition: Condition): Option<real> {
    match (Bound(condition, Lt), Bound(condition, Lte))
    case (Some(x), Some(y)) => Some(if x <= y then x else y)
    case (Some(x), None) => Some(x)
    case (None, y) => y
  }

  function Operators(spec: Dict<string, Value>): Checked<Condition> {
    if spec == [] then Err(NoOperators)
    else
      match CheckOperators(spec, [])
      case Err(e) => Err(e)
      case Ok(condition) =>
        if Low(condition).Some? && High(condition).Some? && Low(condition).value > High(condition).value
        then Err(EmptyRange) else Ok(condition)
  }

  function ConditionOf(filter: ApiFilter): Checked<Condition> {
    match filter
    case Ops(spec) => Operators(spec)
    case Plain(List(items)) =>
      (match ScalarList(items) case Err(e) => Err(e) case Ok(v) => Ok([(In, v)]))
    case Plain(value) => if IsScalar(value) then Ok([(Eq, value)]) else Err(NotAValue)
  }

  method OperatorsLoop(spec: Dict<string, Value>) returns (r: Checked<Condition>)
    ensures r == Operators(spec)
  {
    if spec == [] { return Err(NoOperators); }
    var condition: Condition := [];
    for i := 0 to |spec|
      invariant CheckOperators(spec, []) == CheckOperators(spec[i..], condition)
    {
      assert spec[i..][1..] == spec[i + 1..];
      match CheckOperator(spec[i].0, spec[i].1) {
        case Err(e) => return Err(e);
        case Ok((op, operand)) => condition := Put(condition, op, operand);
      }
    }
    var low, high := Low(condition), High(condition);
    if low.Some? && high.Some? && low.value > high.value { return Err(EmptyRange); }
    return Ok(condition);
  }

  function FieldCondition(field: string, filter: ApiFilter, allowed: seq<string>): Checked<Condition> {
    if field !in allowed then Err(UnknownField) else ConditionOf(filter)
  }

  function Errors(filters: Dict<string, ApiFilter>, allowed: seq<string>): seq<(string, FilterError)> {
    if filters == [] then []
    else
      (match FieldCondition(filters[0].0, filters[0].1, allowed)
       case Err(e) => [(filters[0].0, e)]
       case Ok(_) => [])
      + Errors(filters[1..], allowed)
  }

  function Conditions(filters: Dict<string, ApiFilter>, allowed: seq<string>, result: PineconeFilter): PineconeFilter
    decreases |filters|
  {
    if filters == [] then result
    else
      match FieldCondition(filters[0].0, filters[0].1, allowed)
      case Err(_) => Conditions(filters[1..], allowed, result)
      case Ok(condition) => Conditions(filters[1..], allowed, Put(result, filters[0].0, condition))
  }

  function Build(filters: Dict<string, ApiFilter>, allowed: seq<string>): Built {
    if Errors(filters, allowed) != [] then Refused(Errors(filters, allowed))
    else Accepted(Conditions(filters, allowed, []))
  }

  function Reported(errors: seq<(string, FilterError)>, field: string, checked: Checked<Condition>): seq<(string,
                                                                                                          FilterError)>
  {
    match checked case Err(e) => errors + [(field, e)] case Ok(_) => errors
  }

  lemma {:induction false} ErrorsTurn(filters: Dict<string, ApiFilter>, i: nat, allowed: seq<string>,
                                      errors: seq<(string, FilterError)>)
    requires i < |filters|
    ensures errors + Errors(filters[i..], allowed)
         == Reported(errors, filters[i].0, FieldCondition(filters[i].0, filters[i].1, allowed))
            + Errors(filters[i + 1..], allowed)
  {
    assert filters[i..][1..] == filters[i + 1..];
    var checked, rest := FieldCondition(filters[i].0, filters[i].1, allowed), Errors(filters[i + 1..], allowed);
    match checked
    case Err(e) => assert errors + ([(filters[i].0, e)] + rest) == errors + [(filters[i].0, e)] + rest;
    case Ok(_) => assert errors + ([] + rest) == errors + rest;
  }

  method BuildPineconeFilter(filters: Dict<string, ApiFilter>, allowed: seq<string>) returns (r: Built)
    ensures r == Build(filters, allowed)
  {
    if filters == [] { return Accepted([]); }
    var errors: seq<(string, FilterError)> := [];
    var result: PineconeFilter := [];
    for i := 0 to |filters|
      invariant errors + Errors(filters[i..], allowed) == Errors(filters, allowed)
      invariant Conditions(filters[i..], allowed, result) == Conditions(filters, allowed, [])
    {
      assert filters[i..][1..] == filters[i + 1..];
      ErrorsTurn(filters, i, allowed, errors);
      var (field, value) := filters[i];
      if field !in allowed {
        errors := errors + [(field, UnknownField)];
        continue;
      }
      match ConditionOf(value) {
        case Ok(condition) => result := Put(result, field, condition);
        case Err(e) => errors := errors + [(field, e)];
      }
    }
    if errors != [] { return Refused(errors); }
    return Accepted(result);
  }

  // ---- Evaluation ----

  function ValuesOf(value: Value): seq<Value> {
    if value.List? then value.items else [value]
  }

  /** `_check`: whether one operator holds of an item's metadata value. */
  predicate Check(op: Op, operand: Value, value: Value) {
    var values := ValuesOf(value);
    var operands := if operand.List? then operand.items else [];
    match op
    case Eq => Among(operand, values)
    case Ne => !Among(operand, values)
    case In => exists i :: 0 <= i < |values| && Among(values[i], operands)
    case Nin => forall i :: 0 <= i < |values| ==> !Among(values[i], operands)
    case Gt => value.Num? && operand.Num? && value.n > operand.n
    case Gte => value.Num? && operand.Num? && value.n >= operand.n
    case Lt => value.Num? && operand.Num? && value.n < operand.n
    case Lte => value.Num? && operand.Num? && value.n <= operand.n
  }

  /** `metadata.get(field)` */
  function Field(metadata: map<string, Value>, field: string): Value {
    if field in metadata then metadata[field] else Null
  }

  predicate Holds(condition: Condition, value: Value) {
    forall i :: 0 <= i < |condition| ==> Check(condition[i].0, condition[i].1, value)
  }

  predicate MatchesFilter(metadata: map<string, Value>, filter: PineconeFilter) {
    forall i :: 0 <= i < |filter| ==> Holds(filter[i].1, Field(metadata, filter[i].0))
  }

  // ---- What a user's filter means ----

  /** An operator written twice, with and without the `$`, counts the last time. */
  ghost predicate Overridden(spec: Dict<string, Value>, i: nat)
    requires i < |spec|
  {
    exists j :: i < j < |spec| && ParseOp(spec[j].0) == ParseOp(spec[i].0)
  }

  ghost predicate Means(filter: ApiFilter, value: Value) {
    match filter
    case Plain(List(items)) => Check(In, List(items), value)
    case Plain(x) => Check(Eq, x, value)
    case Ops(spec) =>
      forall i :: 0 <= i < |spec| && !Overridden(spec, i) && ParseOp(spec[i].0).Some? ==>
        Check(ParseOp(spec[i].0).value, spec[i].1, value)
  }

  ghost predicate Absent(op: Op, spec: Dict<string, Value>) {
    forall j :: 0 <= j < |spec| ==> ParseOp(spec[j].0) != Some(op)
  }

  /** Entries gathered so far hold, unless a later operator replaces them. */
  ghost predicate HoldsBeside(condition: Condition, spec: Dict<string, Value>, value: Value) {
    forall i :: 0 <= i < |condition| && Absent(condition[i].0, spec) ==> Check(condition[i].0, condition[i].1, value)
  }

  lemma BesideHead(condition: Condition, spec: Dict<string, Value>, op: Op, operand: Value, value: Value)
    requires DistinctKeys(condition) && spec != [] && ParseOp(spec[0].0) == Some(op)
    ensures HoldsBeside(Put(condition, op, operand), spec[1..], value) <==>
              HoldsBeside(condition, spec, value) && (!Overridden(spec, 0) ==> Check(op, operand, value))
  {
    var r := Put(condition, op, operand);
    if HoldsBeside(condition, spec, value) && (!Overridden(spec, 0) ==> Check(op, operand, value)) {
      forall i | 0 <= i < |r| && Absent(r[i].0, spec[1..]) ensures Check(r[i].0, r[i].1, value) {
        if r[i].0 != op { assert r[i] == condition[i]; }
      }
    }
  }

  lemma {:induction false} CheckOperatorsMeaning(spec: Dict<string, Value>, condition: Condition, value: Value)
    requires DistinctKeys(condition) && CheckOperators(spec, condition).Ok?
    ensures DistinctKeys(CheckOperators(spec, condition).value)
    ensures Holds(CheckOperators(spec, condition).value, value) <==>
              Means(Ops(spec), value) && HoldsBeside(condition, spec, value)
    decreases |spec|
  {
    if spec != [] {
      var (op, operand) := CheckOperator(spec[0].0, spec[0].1).value;
      assert operand == spec[0].1;
      PutKeepsDistinct(condition, op, operand);
      CheckOperatorsMeaning(spec[1..], Put(condition, op, operand), value);
      BesideHead(condition, spec, op, operand, value);
      MeansTail(spec, value);
    }
  }

  lemma MeansTail(spec: Dict<string, Value>, value: Value)
    requires spec != [] && ParseOp(spec[0].0).Some?
    ensures Means(Ops(spec), value) <==>
              Means(Ops(spec[1..]), value)
              && (!Overridden(spec, 0) ==> Check(ParseOp(spec[0].0).value, spec[0].1, value))
  {
    var rest := spec[1..];
    forall i | 0 <= i < |rest| ensures rest[i] == spec[i + 1] && (Overridden(rest, i) <==> Overridden(spec, i + 1)) {}
    if Means(Ops(spec), value) {
      forall i | 0 <= i < |rest| && !Overridden(rest, i) && ParseOp(rest[i].0).Some?
        ensures Check(ParseOp(rest[i].0).value, rest[i].1, value)
      {
        assert !Overridden(spec, i + 1);
      }
    }
    if Means(Ops(rest), value) && (!Overridden(spec, 0) ==> Check(ParseOp(spec[0].0).value, spec[0].1, value)) {
      forall i | 0 <= i < |spec| && !Overridden(spec, i) && ParseOp(spec[i].0).Some?
        ensures Check(ParseOp(spec[i].0).value, spec[i].1, value)
      {
        if i > 0 { assert rest[i - 1] == spec[i] && !Overridden(rest, i - 1); }
      }
    }
  }

  lemma ConditionMeaning(filter: ApiFilter, value: Value)
    requires ConditionOf(filter).Ok?
    ensures Holds(ConditionOf(filter).value, value) <==> Means(filter, value)
  {
    if filter.Ops? {
      CheckOperatorsMeaning(filter.spec, [], value);
    } else {
      var c := ConditionOf(filter).value;
      assert c == [(if filter.value.List? then In else Eq, filter.value)];
      assert Holds(c, value) <==> Check(c[0].0, c[0].1, value);
    }
  }

  lemma MatchesAppend(result: PineconeFilter, field: string, condition: Condition, metadata: map<string, Value>)
    ensures MatchesFilter(metadata, result + [(field, condition)]) <==>
              MatchesFilter(metadata, result) && Holds(condition, Field(metadata, field))
  {
    var r := result + [(field, condition)];
    assert r[|result|] == (field, condition);
    assert forall i :: 0 <= i < |result| ==> r[i] == result[i];
  }

  ghost predicate AllMean(filters: Dict<string, ApiFilter>, metadata: map<string, Value>) {
    forall i :: 0 <= i < |filters| ==> Means(filters[i].1, Field(metadata, filters[i].0))
  }

  lemma AllMeanTail(filters: Dict<string, ApiFilter>, metadata: map<string, Value>)
    requires filters != []
    ensures AllMean(filters, metadata) <==>
              Means(filters[0].1, Field(metadata, filters[0].0)) && AllMean(filters[1..], metadata)
  {
    assert forall i :: 0 < i < |filters| ==> filters[i] == filters[1..][i - 1];
    assert forall i :: 0 <= i < |filters| - 1 ==> filters[1..][i] == filters[i + 1];
  }

  lemma {:induction false} ConditionsMeaning(filters: Dict<string, ApiFilter>, allowed: seq<string>,
                                             result: PineconeFilter, metadata: map<string, Value>)
    requires DistinctKeys(filters) && Errors(filters, allowed) == []
    requires forall i :: 0 <= i < |filters| ==> !HasKey(result, filters[i].0)
    ensures MatchesFilter(metadata, Conditions(filters, allowed, result)) <==>
              MatchesFilter(metadata, result) && AllMean(filters, metadata)
    decreases |filters|
  {
    if filters != [] {
      var (field, filter) := filters[0];
      var condition := FieldCondition(field, filter, allowed).value;
      var next := result + [(field, condition)];
      assert Put(result, field, condition) == next;
      FreshKeys(filters, result, condition);
      ConditionsMeaning(filters[1..], allowed, next, metadata);
      ConditionMeaning(filter, Field(metadata, field));
      MatchesAppend(result, field, condition, metadata);
      AllMeanTail(filters, metadata);
    }
  }

  lemma FreshKeys(filters: Dict<string, ApiFilter>, result: PineconeFilter, condition: Condition)
    requires DistinctKeys(filters) && filters != []
    requires forall i :: 0 <= i < |filters| ==> !HasKey(result, filters[i].0)
    ensures var next := result + [(filters[0].0, condition)];
            forall i :: 0 <= i < |filters[1..]| ==> !HasKey(next, filters[1..][i].0)
  {
    var next := result + [(filters[0].0, condition)];
    forall i | 0 <= i < |filters[1..]| ensures !HasKey(next, filters[1..][i].0) {
      assert filters[1..][i] == filters[i + 1];
      assert !HasKey(result, filters[i + 1].0) && filters[0].0 != filters[i + 1].0;
    }
  }

  /** Compilation preserves meaning: when a user's filters are accepted, an item passes the compiled
      filter exactly when each field satisfies what was written for it. */
  lemma BuildPreservesMeaning(filters: Dict<string, ApiFilter>, allowed: seq<string>, metadata: map<string, Value>)
    requires DistinctKeys(filters) && Build(filters, allowed).Accepted?
    ensures MatchesFilter(metadata, Build(filters, allowed).filter) <==> AllMean(filters, metadata)
  {
    ConditionsMeaning(filters, allowed, [], metadata);
  }

  lemma {:induction false} ErrorsEmpty(filters: Dict<string, ApiFilter>, allowed: seq<string>)
    ensures Errors(filters, allowed) == [] <==>
              forall i :: 0 <= i < |filters| ==> FieldCondition(filters[i].0, filters[i].1, allowed).Ok?
  {
    if filters != [] {
      ErrorsEmpty(filters[1..], allowed);
      assert forall i :: 0 < i < |filters| ==> filters[i] == filters[1..][i - 1];
      assert forall i :: 0 <= i < |filters| - 1 ==> filters[1..][i] == filters[i + 1];
    }
  }

  // ---- Operators, said outright ----

  /** The value itself or, of a list value, one of its items equals `x`. */
  ghost predicate Carries(value: Value, x: Value) {
    if value.List? then exists k :: 0 <= k < |value.items| && PyEq(x, value.items[k]) else PyEq(x, value)
  }

  /** The value or one of its items is among `xs`. */
  ghost predicate CarriesSome(value: Value, xs: seq<Value>) {
    exists i :: 0 <= i < |xs| && Carries(value, xs[i])
  }

  /** What an operator asks of an item's value: only numbers can pass a range. */
  ghost predicate Passes(op: Op, operand: Value, value: Value) {
    match op
    case Eq => Carries(value, operand)
    case Ne => !Carries(value, operand)
    case In => operand.List? && CarriesSome(value, operand.items)
    case Nin => !(operand.List? && CarriesSome(value, operand.items))
    case _ =>
      && value.Num? && operand.Num?
      && (value.n > operand.n ==> op.Gt? || op.Gte?)
      && (value.n < operand.n ==> op.Lt? || op.Lte?)
      && (value.n == operand.n ==> op.Gte? || op.Lte?)
  }

  lemma {:induction false} PyEqSymmetric(a: Value, b: Value)
    ensures PyEq(a, b) <==> PyEq(b, a)
    decreases a
  {
    if a.List? && b.List? && |a.items| == |b.items| {
      forall i | 0 <= i < |a.items| ensures PyEq(a.items[i], b.items[i]) <==> PyEq(b.items[i], a.items[i]) {
        PyEqSymmetric(a.items[i], b.items[i]);
      }
    }
  }

  /** Values are equal when they are the same, up to True being 1 and False being 0, in lists item by item. */
  lemma {:induction false} PyEqIs(a: Value, b: Value)
    ensures PyEq(a, b) <==>
              if a.List? && b.List?
              then |a.items| == |b.items| && forall i :: 0 <= i < |a.items| ==> PyEq(a.items[i], b.items[i])
              else
                || a == b
                || (a.Bool? && b.Num? && b.n == if a.b then 1.0 else 0.0)
                || (a.Num? && b.Bool? && a.n == if b.b then 1.0 else 0.0)
  {}

  lemma CheckIs(op: Op, operand: Value, value: Value)
    ensures Check(op, operand, value) <==> Passes(op, operand, value)
  {
    var operands := if operand.List? then operand.items else [];
    AmongSome(value, operands);
    assert !value.List? ==> ValuesOf(value)[0] == value;
    assert Among(operand, ValuesOf(value)) <==> Carries(value, operand);
  }

  lemma AmongSome(value: Value, xs: seq<Value>)
    ensures CarriesSome(value, xs) <==> exists i :: 0 <= i < |ValuesOf(value)| && Among(ValuesOf(value)[i], xs)
  {
    var values := ValuesOf(value);
    if k :| 0 <= k < |xs| && Carries(value, xs[k]) {
      var i :| 0 <= i < |values| && PyEq(xs[k], values[i]);
      PyEqSymmetric(xs[k], values[i]);
      assert Among(values[i], xs);
    }
    if i :| 0 <= i < |values| && Among(values[i], xs) {
      var k :| 0 <= k < |xs| && PyEq(values[i], xs[k]);
      PyEqSymmetric(xs[k], values[i]);
      assert Carries(value, xs[k]);
    }
  }

  function NameOf(op: Op): string {
    match op
    case Eq => "eq" case Ne => "ne" case In => "in" case Nin => "nin"
    case Gt => "gt" case Gte => "gte" case Lt => "lt" case Lte => "lte"
  }

  /** Operators are known by their names, with or without a dollar sign. */
  lemma ParseOpIs(raw: string, op: Op)
    ensures ParseOp(raw) == Some(op) <==> raw == NameOf(op) || raw == "$" + NameOf(op)
  {
    assert raw != "" ==> raw == [raw[0]] + raw[1..];
    assert ("$" + NameOf(op))[1..] == NameOf(op);
  }

  // ---- What is accepted ----

  ghost predicate GoodOperand(op: Op, v: Value) {
    match op
    case Eq => v.Str? || v.Num? || v.Bool?
    case Ne => v.Str? || v.Num? || v.Bool?
    case In => v.List? && GoodList(v.items)
    case Nin => v.List? && GoodList(v.items)
    case _ => v.Num?
  }

  ghost predicate GoodList(items: seq<Value>) {
    items != [] && forall i :: 0 <= i < |items| ==> items[i].Str? || items[i].Num? || items[i].Bool?
  }

  ghost predicate GoodEntries(spec: Dict<string, Value>) {
    forall i :: 0 <= i < |spec| ==>
      ParseOp(spec[i].0).Some? && GoodOperand(ParseOp(spec[i].0).value, spec[i].1)
  }

  /** Entry `i` is the one that counts for its operator, which is `op`. */
  ghost predicate Counts(spec: Dict<string, Value>, i: nat, op: Op) {
    i < |spec| && ParseOp(spec[i].0) == Some(op) && !Overridden(spec, i)
  }

  /** A lower bound above an upper bound. */
  ghost predicate Contradicts(spec: Dict<string, Value>) {
    exists i: nat, j: nat :: Above(spec, i, j)
  }

  ghost predicate Above(spec: Dict<string, Value>, i: nat, j: nat) {
    && (Counts(spec, i, Gt) || Counts(spec, i, Gte)) && (Counts(spec, j, Lt) || Counts(spec, j, Lte))
    && spec[i].1.Num? && spec[j].1.Num? && spec[i].1.n > spec[j].1.n
  }

  ghost predicate WellFormed(filter: ApiFilter) {
    match filter
    case Ops(spec) => spec != [] && GoodEntries(spec) && !Contradicts(spec)
    case Plain(List(items)) => GoodList(items)
    case Plain(v) => v.Str? || v.Num? || v.Bool?
  }

  lemma {:induction false} EntriesAccepted(spec: Dict<string, Value>, condition: Condition)
    ensures CheckOperators(spec, condition).Ok? <==> GoodEntries(spec)
    decreases |spec|
  {
    if spec != [] {
      assert CheckOperator(spec[0].0, spec[0].1).Ok? <==>
               ParseOp(spec[0].0).Some? && GoodOperand(ParseOp(spec[0].0).value, spec[0].1);
      assert forall i :: 0 < i < |spec| ==> spec[i] == spec[1..][i - 1];
      assert forall i :: 0 <= i < |spec| - 1 ==> spec[1..][i] == spec[i + 1];
      var op := ParseOp(spec[0].0);
      if op.Some? { EntriesAccepted(spec[1..], Put(condition, op.value, spec[0].1)); }
    }
  }

  lemma CountsTail(spec: Dict<string, Value>, i: nat, op: Op)
    requires 0 < i < |spec|
    ensures Counts(spec, i, op) <==> Counts(spec[1..], i - 1, op)
  {
    var rest := spec[1..];
    assert forall j :: 0 < j < |spec| ==> spec[j] == rest[j - 1];
    assert forall j :: 0 <= j < |rest| ==> rest[j] == spec[j + 1];
  }

  lemma CheckHead(spec: Dict<string, Value>, condition: Condition)
    requires spec != [] && DistinctKeys(condition) && CheckOperators(spec, condition).Ok?
    ensures ParseOp(spec[0].0).Some?
    ensures var next := Put(condition, ParseOp(spec[0].0).value, spec[0].1);
            DistinctKeys(next) && CheckOperators(spec, condition) == CheckOperators(spec[1..], next)
  {
    PutKeepsDistinct(condition, ParseOp(spec[0].0).value, spec[0].1);
  }

  /** The condition holds, for each operator, what the entry that counts says. */
  lemma {:induction false} ConditionHolds(spec: Dict<string, Value>, condition: Condition, op: Op, i: nat)
    requires DistinctKeys(condition) && CheckOperators(spec, condition).Ok? && Counts(spec, i, op)
    ensures Get(CheckOperators(spec, condition).value, op) == Some(spec[i].1)
    decreases |spec|
  {
    CheckHead(spec, condition);
    var next := Put(condition, ParseOp(spec[0].0).value, spec[0].1);
    if i > 0 {
      CountsTail(spec, i, op);
      ConditionHolds(spec[1..], next, op, i - 1);
    } else {
      OnlyHead(spec, op);
      AbsentKeeps(spec[1..], next, op);
      GetAfterPut(condition, op, spec[0].1, op);
    }
  }

  lemma OnlyHead(spec: Dict<string, Value>, op: Op)
    requires Counts(spec, 0, op)
    ensures Absent(op, spec[1..])
  {
    forall j | 0 <= j < |spec[1..]| ensures ParseOp(spec[1..][j].0) != Some(op) {
      assert spec[1..][j] == spec[j + 1];
    }
  }

  lemma {:induction false} AbsentKeeps(spec: Dict<string, Value>, condition: Condition, op: Op)
    requires DistinctKeys(condition) && CheckOperators(spec, condition).Ok? && Absent(op, spec)
    ensures Get(CheckOperators(spec, condition).value, op) == Get(condition, op)
    decreases |spec|
  {
    if spec != [] {
      var head := ParseOp(spec[0].0).value;
      CheckHead(spec, condition);
      assert Absent(op, spec[1..]);
      AbsentKeeps(spec[1..], Put(condition, head, spec[0].1), op);
      GetAfterPut(condition, head, spec[0].1, op);
    }
  }

  lemma {:induction false} LastCounts(spec: Dict<string, Value>, op: Op, i: nat)
    requires i < |spec| && ParseOp(spec[i].0) == Some(op)
    ensures exists j :: i <= j < |spec| && Counts(spec, j, op)
    decreases |spec| - i
  {
    if Overridden(spec, i) {
      var j :| i < j < |spec| && ParseOp(spec[j].0) == ParseOp(spec[i].0);
      LastCounts(spec, op, j);
    } else {
      assert Counts(spec, i, op);
    }
  }

  lemma {:induction false} BoundIsWritten(spec: Dict<string, Value>, op: Op)
    requires CheckOperators(spec, []).Ok?
    ensures var bound := Bound(CheckOperators(spec, []).value, op);
            && (bound.Some? ==> exists i :: 0 <= i < |spec| && Counts(spec, i, op) && spec[i].1 == Num(bound.value))
            && forall i: nat :: Counts(spec, i, op) && spec[i].1.Num? ==> bound == Some(spec[i].1.n)
  {
    forall i: nat | Counts(spec, i, op)
      ensures Get(CheckOperators(spec, []).value, op) == Some(spec[i].1)
    {
      ConditionHolds(spec, [], op, i);
    }
    if j :| 0 <= j < |spec| && ParseOp(spec[j].0) == Some(op) {
      LastCounts(spec, op, j);
    } else {
      AbsentKeeps(spec, [], op);
    }
  }

  lemma {:induction false} RangeIsEmpty(spec: Dict<string, Value>)
    requires CheckOperators(spec, []).Ok?
    ensures var c := CheckOperators(spec, []).value;
            Low(c).Some? && High(c).Some? && Low(c).value > High(c).value <==> Contradicts(spec)
  {
    var c := CheckOperators(spec, []).value;
    BoundIsWritten(spec, Gt);
    BoundIsWritten(spec, Gte);
    BoundIsWritten(spec, Lt);
    BoundIsWritten(spec, Lte);
    if Low(c).Some? && High(c).Some? && Low(c).value > High(c).value {
      var low := if Bound(c, Gt) == Low(c) then Gt else Gte;
      var high := if Bound(c, Lt) == High(c) then Lt else Lte;
      var i: nat :| i < |spec| && Counts(spec, i, low) && spec[i].1 == Num(Low(c).value);
      var j: nat :| j < |spec| && Counts(spec, j, high) && spec[j].1 == Num(High(c).value);
      assert Above(spec, i, j);
    }
  }

  /** A field's filter is accepted exactly when it is well-formed. */
  lemma AcceptedIsWellFormed(filter: ApiFilter)
    ensures ConditionOf(filter).Ok? <==> WellFormed(filter)
  {
    if filter.Ops? && filter.spec != [] {
      EntriesAccepted(filter.spec, []);
      if GoodEntries(filter.spec) { RangeIsEmpty(filter.spec); }
    }
  }

  /** Filters are accepted exactly when every field is a filter field with a well-formed filter. */
  lemma BuildAccepts(filters: Dict<string, ApiFilter>, allowed: seq<string>)
    ensures Build(filters, allowed).Accepted? <==>
              forall i :: 0 <= i < |filters| ==> filters[i].0 in allowed && WellFormed(filters[i].1)
  {
    ErrorsEmpty(filters, allowed);
    forall i | 0 <= i < |filters|
      ensures FieldCondition(filters[i].0, filters[i].1, allowed).Ok? <==>
                filters[i].0 in allowed && WellFormed(filters[i].1)
    {
      AcceptedIsWellFormed(filters[i].1);
    }
  }
}
