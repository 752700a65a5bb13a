/**
 The data source filter language (`linode/helper/filter.go`): the part compiled into a query for the
 API, and the evaluation of the whole filter list on the client.
 */
module Filter {
  import opened Wrappers
  import opened Text

  /**
   A flattened attribute value or a converted filter value. OtherValue stands for the remaining kinds that
   are accepted (floats, 32-bit integers, arrays), OtherSlice for slices of anything but int and string,
   and Unsupported for every other kind.
   */
  datatype Value =
    | Str(s: string) | Int(n: GoInt) | Bool(b: bool) | OtherValue(tag: int)
    | IntSlice(ints: seq<GoInt>) | StrSlice(strs: seq<string>) | OtherSlice | Unsupported

  type Item = map<string, Value>

  datatype FilterAttribute = FilterAttribute(apiFilterable: bool, typeFunc: string -> Option<Value>)

  /** A FilterConfig together with the regular expression engine (None: the pattern does not compile). */
  datatype Config = Config(attributes: map<string, FilterAttribute>, compile: string -> Option<string -> bool>)

  datatype FilterRule = FilterRule(name: string, values: seq<string>, matchBy: string)

  /** Errors of the filter functions; NoConverter and NotText are Go panics. */
  datatype FilterError =
    | ConversionFailed(value: string) | NotAnAttribute(name: string) | UnsupportedKind | UnknownSliceType
    | NotAString(name: string) | BadPattern(pattern: string) | NoConverter(name: string) | NotText

  // ---------------------------------------------------------------- the converters

  function FilterTypeString(value: string): Option<Value> {
    Some(Str(value))
  }

  function FilterTypeInt(value: string): Option<Value> {
    var n := Atoi(value);
    if n.Some? then Some(Int(n.value)) else None
  }

  /** `strconv.ParseBool`. */
  function FilterTypeBool(value: string): Option<Value> {
    if value in {"1", "t", "T", "TRUE", "true", "True"} then Some(Bool(true))
    else if value in {"0", "f", "F", "FALSE", "false", "False"} then Some(Bool(false))
    else None
  }

  // ---------------------------------------------------------------- evaluation on the client

  /** `ExpandStringList`: drops empty strings. */
  function ExpandStringList(list: seq<string>): seq<string> {
    if list == [] then []
    else (if list[0] != "" then [list[0]] else []) + ExpandStringList(list[1..])
  }

  /** All values converted in order, or the first failure. */
  function Convert(typeFunc: string -> Option<Value>, values: seq<string>): Result<seq<Value>, FilterError> {
    if values == [] then Ok([])
    else
      var v := typeFunc(values[0]);
      if v.None? then Err(ConversionFailed(values[0]))
      else
        var rest := Convert(typeFunc, values[1..]);
        if rest.Err? then rest else Ok([v.value] + rest.value)
  }

  predicate OccursAt(s: string, part: string, i: nat) {
    i + |part| <= |s| && s[i..i + |part|] == part
  }

  /** `strings.Contains`. */
  predicate Contains(s: string, part: string) {
    exists i :: 0 <= i <= |s| && OccursAt(s, part, i)
  }

  /** `validateFilterSubstring` once the item is known to be the string s. */
  function MatchSubstring(values: seq<Value>, s: string): Result<bool, FilterError> {
    if values == [] then Ok(false)
    else if !values[0].Str? then Err(NotText)
    else if Contains(s, values[0].s) then Ok(true)
    else MatchSubstring(values[1..], s)
  }

  /** `validateFilterRegex` once the item is known to be the string s. */
  function MatchRegex(compile: string -> Option<string -> bool>, values: seq<Value>, s: string)
    : Result<bool, FilterError>
  {
    if values == [] then Ok(false)
    else if !values[0].Str? then Err(NotText)
    else
      var pattern := compile(values[0].s);
      if pattern.None? then Err(BadPattern(values[0].s))
      else if pattern.value(s) then Ok(true)
      else MatchRegex(compile, values[1..], s)
  }

  /** `validateFilter` on an item value that is not a slice. */
  function ValidateScalar(cfg: Config, rule: FilterRule, values: seq<string>, item: Value): Result<bool, FilterError> {
    if rule.name !in cfg.attributes && values != [] then Err(NoConverter(rule.name))
    else
      var converted := if values == [] then Ok([]) else Convert(cfg.attributes[rule.name].typeFunc, values);
      if converted.Err? then Err(converted.error)
      else if rule.matchBy == "exact" then Ok(item in converted.value)
      else if rule.matchBy == "substring" || rule.matchBy == "sub" then
        if item.Str? then MatchSubstring(converted.value, item.s) else Err(NotAString(rule.name))
      else if rule.matchBy == "re" || rule.matchBy == "regex" then
        if item.Str? then MatchRegex(cfg.compile, converted.value, item.s) else Err(NotAString(rule.name))
      else Ok(true)
  }

  function Elements(item: Value): seq<Value>
    requires item.IntSlice? || item.StrSlice?
  {
    if item.IntSlice? then seq(|item.ints|, i requires 0 <= i < |item.ints| => Int(item.ints[i]))
    else seq(|item.strs|, i requires 0 <= i < |item.strs| => Str(item.strs[i]))
  }

  /** Some element matches; stops at the first match or error. */
  function ValidateElements(cfg: Config, rule: FilterRule, values: seq<string>, items: seq<Value>)
    : Result<bool, FilterError>
  {
    if items == [] then Ok(false)
    else
      var first := ValidateScalar(cfg, rule, values, items[0]);
      if first.Err? || first.value then first else ValidateElements(cfg, rule, values, items[1..])
  }

  /** `validateFilter`. */
  function ValidateFilter(cfg: Config, rule: FilterRule, values: seq<string>, item: Value): Result<bool, FilterError> {
    match item
    case Unsupported => Err(UnsupportedKind)
    case OtherSlice => Err(UnknownSliceType)
    case IntSlice(_) => ValidateElements(cfg, rule, values, Elements(item))
    case StrSlice(_) => ValidateElements(cfg, rule, values, Elements(item))
    case _ => ValidateScalar(cfg, rule, values, item)
  }

  /** One filter of the list against one item. */
  function Evaluate(cfg: Config, rule: FilterRule, item: Item): Result<bool, FilterError> {
    if rule.name !in item then Err(NotAnAttribute(rule.name))
    else ValidateFilter(cfg, rule, ExpandStringList(rule.values), item[rule.name])
  }

  /** The whole list against one item; the first filter that fails or rejects decides. */
  function Matches(cfg: Config, filters: seq<FilterRule>, item: Item): Result<bool, FilterError> {
    if filters == [] then Ok(true)
    else
      var first := Evaluate(cfg, filters[0], item);
      if first.Err? || !first.value then first else Matches(cfg, filters[1..], item)
  }

  /** The items all filters accept, in order, or the first error. */
  function Select(cfg: Config, filters: seq<FilterRule>, items: seq<Item>): Result<seq<Item>, FilterError> {
    if items == [] then Ok([])
    else
      var first := Matches(cfg, filters, items[0]);
      if first.Err? then Err(first.error)
      else
        var rest := Select(cfg, filters, items[1..]);
        if rest.Err? then rest
        else Ok((if first.value then [items[0]] else []) + rest.value)
  }

  ghost function Prepend(front: seq<Item>, rest: Result<seq<Item>, FilterError>): Result<seq<Item>, FilterError> {
    if rest.Err? then rest else Ok(front + rest.value)
  }

  lemma PrependSplit(front: seq<Item>, middle: seq<Item>, rest: Result<seq<Item>, FilterError>)
    ensures Prepend(front, Prepend(middle, rest)) == Prepend(front + middle, rest)
    ensures front == [] ==> Prepend(front, rest) == rest
    ensures middle == [] ==> front + middle == front && Prepend(middle, rest) == rest
  {
    if rest.Ok? {
      assert front + (middle + rest.value) == front + middle + rest.value;
      assert [] + rest.value == rest.value;
    }
  }

  /** The loop of `ExpandStringList`. */
  method DropEmptyStrings(list: seq<string>) returns (slice: seq<string>)
    ensures slice == ExpandStringList(list)
  {
    slice := [];
    for i := 0 to |list|
      invariant slice + ExpandStringList(list[i..]) == ExpandStringList(list)
    {
      assert list[i..][1..] == list[i + 1..];
      ghost var rest := ExpandStringList(list[i + 1..]);
      if list[i] != "" {
        assert slice + ([list[i]] + rest) == slice + [list[i]] + rest;
        slice := slice + [list[i]];
      } else {
        assert [] + rest == rest;
      }
    }
  }

  /** The loop that converts the values of one filter. */
  method ConvertValues(typeFunc: string -> Option<Value>, values: seq<string>)
    returns (r: Result<seq<Value>, FilterError>)
    ensures r == Convert(typeFunc, values)
  {
    var converted: seq<Value> := [];
    for i := 0 to |values|
      invariant var rest := Convert(typeFunc, values[i..]);
                if rest.Err? then Convert(typeFunc, values) == rest
                else Convert(typeFunc, values).Ok? && Convert(typeFunc, values).value == converted + rest.value
    {
      assert values[i..][1..] == values[i + 1..];
      var value := typeFunc(values[i]);
      if value.None? {
        return Err(ConversionFailed(values[i]));
      }
      converted := converted + [value.value];
    }
    assert values[|values|..] == [] && converted + [] == converted;
    return Ok(converted);
  }

  /** `itemMatchesFilter`. */
  method ItemMatchesFilter(cfg: Config, filters: seq<FilterRule>, item: Item) returns (r: Result<bool, FilterError>)
    ensures r == Matches(cfg, filters, item)
  {
    for i := 0 to |filters|
      invariant Matches(cfg, filters, item) == Matches(cfg, filters[i..], item)
    {
      assert filters[i..][1..] == filters[i + 1..];
      if filters[i].name !in item {
        return Err(NotAnAttribute(filters[i].name));
      }
      var values := DropEmptyStrings(filters[i].values);
      var valid := ValidateFilter(cfg, filters[i], values, item[filters[i].name]);
      if valid.Err? || !valid.value {
        return valid;
      }
    }
    return Ok(true);
  }

  /** `FilterResults`. */
  method FilterResults(cfg: Config, filters: seq<FilterRule>, items: seq<Item>)
    returns (r: Result<seq<Item>, FilterError>)
    ensures r == Select(cfg, filters, items)
  {
    var result: seq<Item> := [];
    PrependSplit([], [], Select(cfg, filters, items));
    assert items[0..] == items;
    for i := 0 to |items|
      invariant Select(cfg, filters, items) == Prepend(result, Select(cfg, filters, items[i..]))
    {
      assert items[i..][1..] == items[i + 1..];
      ghost var rest := Select(cfg, filters, items[i + 1..]);
      PrependSplit(result, [items[i]], rest);
      PrependSplit(result, [], rest);
      var matched := ItemMatchesFilter(cfg, filters, items[i]);
      if matched.Err? {
        return Err(matched.error);
      }
      if matched.value {
        result := result + [items[i]];
      }
    }
    assert items[|items|..] == [] && result + [] == result;
    return Ok(result);
  }

  // ---------------------------------------------------------------- what a filter means

  ghost predicate HasPart(s: string, part: string) {
    exists pre: string, post: string :: s == pre + part + post
  }

  lemma ContainsIff(s: string, part: string)
    ensures Contains(s, part) <==> HasPart(s, part)
  {
    if i :| 0 <= i <= |s| && OccursAt(s, part, i) {
      assert s == s[..i] + part + s[i + |part|..];
    }
    if pre: string, post: string :| s == pre + part + post {
      assert OccursAt(s, part, |pre|);
    }
  }

  /** The text that some non-empty value of the rule converts to satisfies p. */
  ghost predicate SomeText(cfg: Config, rule: FilterRule, p: string -> bool) {
    rule.name in cfg.attributes &&
    exists v, t :: v in rule.values && v != "" && cfg.attributes[rule.name].typeFunc(v) == Some(Str(t)) && p(t)
  }

  ghost predicate AcceptsScalar(cfg: Config, rule: FilterRule, item: Value) {
    if rule.matchBy == "exact" then
      rule.name in cfg.attributes &&
      exists v :: v in rule.values && v != "" && cfg.attributes[rule.name].typeFunc(v) == Some(item)
    else if rule.matchBy == "substring" || rule.matchBy == "sub" then
      item.Str? && SomeText(cfg, rule, t => HasPart(item.s, t))
    else if rule.matchBy == "re" || rule.matchBy == "regex" then
      item.Str? && SomeText(cfg, rule, t => cfg.compile(t).Some? && cfg.compile(t).value(item.s))
    else true
  }

  /** e is an element of a list value. */
  ghost predicate HoldsElement(list: Value, e: Value) {
    match list
    case IntSlice(ints) => e.Int? && e.n in ints
    case StrSlice(strs) => e.Str? && e.s in strs
    case _ => false
  }

  lemma ElementsHeld(list: Value)
    requires list.IntSlice? || list.StrSlice?
    ensures forall e :: e in Elements(list) <==> HoldsElement(list, e)
  {
    if list.IntSlice? {
      forall n | n in list.ints ensures Int(n) in Elements(list) {
        var i :| 0 <= i < |list.ints| && list.ints[i] == n;
        assert Elements(list)[i] == Int(n);
      }
    } else {
      forall s | s in list.strs ensures Str(s) in Elements(list) {
        var i :| 0 <= i < |list.strs| && list.strs[i] == s;
        assert Elements(list)[i] == Str(s);
      }
    }
  }

  /** What a filter is documented to do: a list attribute is accepted when one of its elements is. */
  ghost predicate Accepts(cfg: Config, rule: FilterRule, item: Item) {
    rule.name in item &&
    var value := item[rule.name];
    if value.IntSlice? || value.StrSlice? then exists e :: HoldsElement(value, e) && AcceptsScalar(cfg, rule, e)
    else AcceptsScalar(cfg, rule, value)
  }

  ghost predicate SomeMatch(values: seq<Value>, p: string -> bool) {
    exists i :: 0 <= i < |values| && values[i].Str? && p(values[i].s)
  }

  lemma {:induction false} MatchersMeaning(compile: string -> Option<string -> bool>, values: seq<Value>, s: string)
    ensures MatchSubstring(values, s).Ok? ==>
              (MatchSubstring(values, s).value <==> SomeMatch(values, t => HasPart(s, t)))
    ensures MatchRegex(compile, values, s).Ok? ==>
              (MatchRegex(compile, values, s).value
               <==> SomeMatch(values, t => compile(t).Some? && compile(t).value(s)))
  {
    if values != [] {
      if values[0].Str? {
        ContainsIff(s, values[0].s);
      }
      MatchersMeaning(compile, values[1..], s);
      assert forall i :: 0 <= i < |values[1..]| ==> values[1..][i] == values[i + 1];
      assert forall i :: 1 <= i < |values| ==> values[i] == values[1..][i - 1];
    }
  }

  /** Searching the converted non-empty values is searching the texts the rule's values convert to. */
  lemma ConvertedTexts(cfg: Config, rule: FilterRule, converted: seq<Value>, p: string -> bool)
    requires rule.name in cfg.attributes
    requires Convert(cfg.attributes[rule.name].typeFunc, ExpandStringList(rule.values)) == Ok(converted)
    ensures SomeMatch(converted, p) <==> SomeText(cfg, rule, p)
  {
    var values, typeFunc := ExpandStringList(rule.values), cfg.attributes[rule.name].typeFunc;
    ConvertOkIff(typeFunc, values);
    ExpandStringListMembers(rule.values);
    if SomeMatch(converted, p) {
      var i :| 0 <= i < |converted| && converted[i].Str? && p(converted[i].s);
      assert values[i] in values && typeFunc(values[i]) == Some(Str(converted[i].s));
    }
    if SomeText(cfg, rule, p) {
      var v, t :| v in rule.values && v != "" && typeFunc(v) == Some(Str(t)) && p(t);
      assert v in values;
      var i :| 0 <= i < |values| && values[i] == v;
      assert converted[i] == Str(t);
    }
  }

  /** The two text matchers on the converted values search the texts that the rule's values convert to. */
  lemma TextsMeaning(cfg: Config, rule: FilterRule, converted: seq<Value>, s: string)
    requires rule.name in cfg.attributes
    requires Convert(cfg.attributes[rule.name].typeFunc, ExpandStringList(rule.values)) == Ok(converted)
    ensures MatchSubstring(converted, s).Ok? ==>
              (MatchSubstring(converted, s).value <==> SomeText(cfg, rule, t => HasPart(s, t)))
    ensures MatchRegex(cfg.compile, converted, s).Ok? ==>
              (MatchRegex(cfg.compile, converted, s).value
               <==> SomeText(cfg, rule, t => cfg.compile(t).Some? && cfg.compile(t).value(s)))
  {
    MatchersMeaning(cfg.compile, converted, s);
    ConvertedTexts(cfg, rule, converted, t => HasPart(s, t));
    ConvertedTexts(cfg, rule, converted, t => cfg.compile(t).Some? && cfg.compile(t).value(s));
  }

  /** A successful evaluation answers what the filter means, on a single value. */
  lemma ScalarMeaning(cfg: Config, rule: FilterRule, item: Value)
    requires ValidateScalar(cfg, rule, ExpandStringList(rule.values), item).Ok?
    ensures ValidateScalar(cfg, rule, ExpandStringList(rule.values), item).value <==> AcceptsScalar(cfg, rule, item)
  {
    var values := ExpandStringList(rule.values);
    ExpandStringListMembers(rule.values);
    if rule.name in cfg.attributes {
      var typeFunc := cfg.attributes[rule.name].typeFunc;
      ConvertOkIff(typeFunc, values);
      var converted := Convert(typeFunc, values).value;
      if item.Str? {
        TextsMeaning(cfg, rule, converted, item.s);
      }
      ExactMeaning(typeFunc, values, item);
      assert forall v :: v in values <==> v in rule.values && v != "";
    } else {
      assert forall v :: v in rule.values ==> v == "";
    }
  }

  lemma ExactMeaning(typeFunc: string -> Option<Value>, values: seq<string>, item: Value)
    requires Convert(typeFunc, values).Ok?
    ensures item in Convert(typeFunc, values).value <==> exists v :: v in values && typeFunc(v) == Some(item)
  {
  }

  lemma {:induction false} ElementsMeaning(cfg: Config, rule: FilterRule, items: seq<Value>)
    requires ValidateElements(cfg, rule, ExpandStringList(rule.values), items).Ok?
    ensures ValidateElements(cfg, rule, ExpandStringList(rule.values), items).value
            <==> exists e :: e in items && AcceptsScalar(cfg, rule, e)
  {
    if items != [] {
      ScalarMeaning(cfg, rule, items[0]);
      assert items == [items[0]] + items[1..];
      if ValidateScalar(cfg, rule, ExpandStringList(rule.values), items[0]) == Ok(false) {
        ElementsMeaning(cfg, rule, items[1..]);
      }
    }
  }

  /** The same on the attribute of an item. */
  lemma EvaluateMeaning(cfg: Config, rule: FilterRule, item: Item)
    requires Evaluate(cfg, rule, item).Ok?
    ensures Evaluate(cfg, rule, item).value <==> Accepts(cfg, rule, item)
  {
    var value := item[rule.name];
    if value.IntSlice? || value.StrSlice? {
      ElementsMeaning(cfg, rule, Elements(value));
      ElementsHeld(value);
    } else {
      ScalarMeaning(cfg, rule, value);
    }
  }

  lemma {:induction false} MatchesMeaning(cfg: Config, filters: seq<FilterRule>, item: Item)
    requires Matches(cfg, filters, item).Ok?
    ensures Matches(cfg, filters, item).value <==> forall i :: 0 <= i < |filters| ==> Accepts(cfg, filters[i], item)
  {
    if filters != [] {
      EvaluateMeaning(cfg, filters[0], item);
      if Evaluate(cfg, filters[0], item).value {
        MatchesMeaning(cfg, filters[1..], item);
        assert forall i :: 0 <= i < |filters[1..]| ==> filters[1..][i] == filters[i + 1];
        assert forall i :: 1 <= i < |filters| ==> filters[i] == filters[1..][i - 1];
      }
    }
  }

  /** The items that every filter accepts, in order. */
  ghost function Accepted(cfg: Config, filters: seq<FilterRule>, items: seq<Item>): seq<Item> {
    if items == [] then []
    else
      (if forall i :: 0 <= i < |filters| ==> Accepts(cfg, filters[i], items[0]) then [items[0]] else [])
      + Accepted(cfg, filters, items[1..])
  }

  /** Whenever `FilterResults` succeeds it returns exactly the items that every filter accepts. */
  lemma {:induction false} SelectMeaning(cfg: Config, filters: seq<FilterRule>, items: seq<Item>)
    requires Select(cfg, filters, items).Ok?
    ensures Select(cfg, filters, items) == Ok(Accepted(cfg, filters, items))
  {
    if items != [] {
      MatchesMeaning(cfg, filters, items[0]);
      SelectMeaning(cfg, filters, items[1..]);
    }
  }

  // ---------------------------------------------------------------- the query

  /** One `+or` of equalities on an attribute. */
  datatype Clause = Clause(name: string, alternatives: seq<Value>)

  /** The `+and` of the clauses; the empty list is the query `{}`. */
  type Query = seq<Clause>

  /** The filters that are sent to the API. */
  predicate PushedDown(cfg: Config, rule: FilterRule) {
    rule.matchBy == "exact" && rule.name in cfg.attributes && cfg.attributes[rule.name].apiFilterable
  }

  /** q has one clause per pushed-down filter, in order, with every value converted, empty ones included. */
  ghost predicate IsQueryFor(cfg: Config, filters: seq<FilterRule>, q: Query)
    decreases |filters|
  {
    if filters == [] then q == []
    else if !PushedDown(cfg, filters[0]) then IsQueryFor(cfg, filters[1..], q)
    else
      && q != []
      && Convert(cfg.attributes[filters[0].name].typeFunc, filters[0].values) == Ok(q[0].alternatives)
      && q[0].name == filters[0].name
      && IsQueryFor(cfg, filters[1..], q[1..])
  }

  /** Every value of every pushed-down filter converts. */
  ghost predicate Compiles(cfg: Config, filters: seq<FilterRule>) {
    forall i, v :: 0 <= i < |filters| && PushedDown(cfg, filters[i]) && v in filters[i].values ==>
      cfg.attributes[filters[i].name].typeFunc(v).Some?
  }

  lemma {:induction false} ConvertOkIff(typeFunc: string -> Option<Value>, values: seq<string>)
    ensures Convert(typeFunc, values).Ok? <==> forall v :: v in values ==> typeFunc(v).Some?
    ensures Convert(typeFunc, values).Ok? ==>
              |Convert(typeFunc, values).value| == |values|
              && forall i :: 0 <= i < |values| ==> typeFunc(values[i]) == Some(Convert(typeFunc, values).value[i])
  {
    if values != [] {
      ConvertOkIff(typeFunc, values[1..]);
      assert values == [values[0]] + values[1..];
    }
  }

  /** A failing conversion reports a value that does not convert. */
  lemma {:induction false} ConvertFailure(typeFunc: string -> Option<Value>, values: seq<string>)
    ensures Convert(typeFunc, values).Err? ==>
              exists i :: 0 <= i < |values| && typeFunc(values[i]).None?
                          && Convert(typeFunc, values) == Err(ConversionFailed(values[i]))
                          && forall j :: 0 <= j < i ==> typeFunc(values[j]).Some?
  {
    if values != [] && typeFunc(values[0]).Some? && Convert(typeFunc, values).Err? {
      ConvertFailure(typeFunc, values[1..]);
      var i :| 0 <= i < |values[1..]| && typeFunc(values[1..][i]).None?
        && Convert(typeFunc, values[1..]) == Err(ConversionFailed(values[1..][i]))
        && forall j :: 0 <= j < i ==> typeFunc(values[1..][j]).Some?;
      assert values[i + 1] == values[1..][i];
      assert forall j :: 1 <= j < i + 1 ==> values[j] == values[1..][j - 1];
    }
  }

  lemma {:induction false} QueryAppend(cfg: Config, filters: seq<FilterRule>, q: Query, rule: FilterRule, more: Query)
    requires IsQueryFor(cfg, filters, q) && IsQueryFor(cfg, [rule], more)
    ensures IsQueryFor(cfg, filters + [rule], q + more)
    decreases |filters|
  {
    if filters == [] {
      assert filters + [rule] == [rule] && q + more == more;
    } else {
      assert (filters + [rule])[1..] == filters[1..] + [rule];
      if PushedDown(cfg, filters[0]) {
        QueryAppend(cfg, filters[1..], q[1..], rule, more);
        assert (q + more)[1..] == q[1..] + more;
      } else {
        QueryAppend(cfg, filters[1..], q, rule, more);
      }
    }
  }

  /** The clause compares the attribute of an exact filter the API supports with that filter's converted values. */
  ghost predicate IsClauseOfSome(cfg: Config, filters: seq<FilterRule>, clause: Clause) {
    exists rule :: rule in filters && rule.matchBy == "exact" && rule.name == clause.name
                   && rule.name in cfg.attributes && cfg.attributes[rule.name].apiFilterable
                   && |clause.alternatives| == |rule.values|
                   && forall i :: 0 <= i < |rule.values| ==>
                        cfg.attributes[rule.name].typeFunc(rule.values[i]) == Some(clause.alternatives[i])
  }

  lemma {:induction false} QueryClauses(cfg: Config, filters: seq<FilterRule>, q: Query)
    requires IsQueryFor(cfg, filters, q)
    ensures forall clause :: clause in q <==> IsClauseOfSome(cfg, filters, clause)
    decreases |filters|
  {
    if filters != [] {
      var rule, rest := filters[0], filters[1..];
      assert filters == [rule] + rest;
      var more := if PushedDown(cfg, rule) then q[1..] else q;
      QueryClauses(cfg, rest, more);
      if PushedDown(cfg, rule) {
        ConvertOkIff(cfg.attributes[rule.name].typeFunc, rule.values);
        assert q == [q[0]] + more;
      }
      forall clause ensures clause in q <==> IsClauseOfSome(cfg, filters, clause) {
        if IsClauseOfSome(cfg, [rule], clause) {
          OnlyClause(cfg, rule, clause, q);
        }
        assert IsClauseOfSome(cfg, filters, clause)
          <==> IsClauseOfSome(cfg, [rule], clause) || IsClauseOfSome(cfg, rest, clause);
      }
    }
  }

  lemma OnlyClause(cfg: Config, rule: FilterRule, clause: Clause, q: Query)
    requires IsClauseOfSome(cfg, [rule], clause)
    requires q != [] && Convert(cfg.attributes[rule.name].typeFunc, rule.values) == Ok(q[0].alternatives)
    requires q[0].name == rule.name
    ensures clause == q[0]
  {
    ConvertOkIff(cfg.attributes[rule.name].typeFunc, rule.values);
    assert clause.alternatives == q[0].alternatives;
  }

  /** `ConstructFilterString`, up to JSON encoding and ordering. */
  method ConstructFilterString(cfg: Config, filters: seq<FilterRule>) returns (r: Result<Query, FilterError>)
    ensures r.Ok? <==> Compiles(cfg, filters)
    ensures r.Ok? ==> IsQueryFor(cfg, filters, r.value)
    ensures r.Ok? ==> forall clause :: clause in r.value <==> IsClauseOfSome(cfg, filters, clause)
    ensures r.Err? ==>
              exists rule :: rule in filters && rule.matchBy == "exact"
                             && rule.name in cfg.attributes && cfg.attributes[rule.name].apiFilterable
                             && r.error.ConversionFailed? && r.error.value in rule.values
                             && cfg.attributes[rule.name].typeFunc(r.error.value).None?
  {
    var rootFilter: Query := [];
    for i := 0 to |filters|
      invariant IsQueryFor(cfg, filters[..i], rootFilter) && Compiles(cfg, filters[..i])
    {
      var rule := filters[i];
      assert filters[..i + 1] == filters[..i] + [rule];
      var clause: Query := [];
      if PushedDown(cfg, rule) {
        var typeFunc := cfg.attributes[rule.name].typeFunc;
        var subFilter := ConvertValues(typeFunc, rule.values);
        ConvertOkIff(typeFunc, rule.values);
        ConvertFailure(typeFunc, rule.values);
        if subFilter.Err? {
          return Err(subFilter.error);
        }
        clause := [Clause(rule.name, subFilter.value)];
      }
      QueryAppend(cfg, filters[..i], rootFilter, rule, clause);
      rootFilter := rootFilter + clause;
    }
    assert filters[..|filters|] == filters;
    QueryClauses(cfg, filters, rootFilter);
    return Ok(rootFilter);
  }

  // ---------------------------------------------------------------- the server

  /** The server's notion of equal values: anything that at least equates identical ones. */
  ghost predicate Reflexive(eq: (Value, Value) -> bool) {
    forall v :: eq(v, v)
  }

  /** A list attribute satisfies a clause when one of its elements equals an alternative. */
  ghost predicate Satisfies(eq: (Value, Value) -> bool, clause: Clause, item: Item) {
    clause.name in item &&
    var value := item[clause.name];
    exists v :: v in clause.alternatives &&
      if value.IntSlice? || value.StrSlice? then exists e :: HoldsElement(value, e) && eq(e, v) else eq(value, v)
  }

  ghost predicate Admits(eq: (Value, Value) -> bool, q: Query, item: Item) {
    forall i :: 0 <= i < |q| ==> Satisfies(eq, q[i], item)
  }

  /** What the API returns for a query. */
  ghost function Serve(eq: (Value, Value) -> bool, q: Query, items: seq<Item>): seq<Item> {
    if items == [] then []
    else (if Admits(eq, q, items[0]) then [items[0]] else []) + Serve(eq, q, items[1..])
  }

  /** Some value of the rule, empty ones included, converts to something the server finds in the item. */
  ghost predicate ServerAccepts(cfg: Config, eq: (Value, Value) -> bool, rule: FilterRule, item: Item)
    requires PushedDown(cfg, rule)
  {
    rule.name in item &&
    exists s :: s in rule.values && cfg.attributes[rule.name].typeFunc(s).Some? &&
      var v, value := cfg.attributes[rule.name].typeFunc(s).value, item[rule.name];
      if value.IntSlice? || value.StrSlice? then exists e :: HoldsElement(value, e) && eq(e, v) else eq(value, v)
  }

  ghost predicate ServerAcceptsAll(cfg: Config, eq: (Value, Value) -> bool, filters: seq<FilterRule>, item: Item) {
    forall i :: 0 <= i < |filters| && PushedDown(cfg, filters[i]) ==> ServerAccepts(cfg, eq, filters[i], item)
  }

  /** The query admits exactly the items that every pushed-down filter accepts on the server. */
  lemma {:induction false} QueryMeaning(
    cfg: Config, eq: (Value, Value) -> bool, filters: seq<FilterRule>, q: Query, item: Item
  )
    requires IsQueryFor(cfg, filters, q)
    ensures Admits(eq, q, item) <==> ServerAcceptsAll(cfg, eq, filters, item)
    decreases |filters|
  {
    if filters != [] {
      assert forall i :: 0 <= i < |filters[1..]| ==> filters[1..][i] == filters[i + 1];
      assert forall i :: 1 <= i < |filters| ==> filters[i] == filters[1..][i - 1];
      if PushedDown(cfg, filters[0]) {
        ClauseMeaning(cfg, eq, filters[0], q[0], item);
        QueryMeaning(cfg, eq, filters[1..], q[1..], item);
        assert forall i :: 0 <= i < |q[1..]| ==> q[1..][i] == q[i + 1];
        assert forall i :: 1 <= i < |q| ==> q[i] == q[1..][i - 1];
      } else {
        QueryMeaning(cfg, eq, filters[1..], q, item);
      }
    }
  }

  lemma ClauseMeaning(cfg: Config, eq: (Value, Value) -> bool, rule: FilterRule, clause: Clause, item: Item)
    requires PushedDown(cfg, rule) && clause.name == rule.name
    requires Convert(cfg.attributes[rule.name].typeFunc, rule.values) == Ok(clause.alternatives)
    ensures Satisfies(eq, clause, item) <==> ServerAccepts(cfg, eq, rule, item)
  {
    var typeFunc := cfg.attributes[rule.name].typeFunc;
    ConvertOkIff(typeFunc, rule.values);
    forall v ensures v in clause.alternatives <==> exists s :: s in rule.values && typeFunc(s) == Some(v) {
      ExactMeaning(typeFunc, rule.values, v);
    }
  }

  // ---------------------------------------------------------------- pushdown preserves meaning

  lemma {:induction false} ConvertKeepsMembers(
    typeFunc: string -> Option<Value>, values: seq<string>, all: seq<string>, x: Value
  )
    requires Convert(typeFunc, values).Ok? && x in Convert(typeFunc, values).value
    requires Convert(typeFunc, all).Ok? && forall v :: v in values ==> v in all
    ensures x in Convert(typeFunc, all).value
  {
    ConvertOkIff(typeFunc, values);
    ConvertOkIff(typeFunc, all);
    var i :| 0 <= i < |values| && Convert(typeFunc, values).value[i] == x;
    assert values[i] in all;
    var j :| 0 <= j < |all| && all[j] == values[i];
    assert Convert(typeFunc, all).value[j] == x;
  }

  lemma {:induction false} ExpandStringListMembers(list: seq<string>)
    ensures forall v :: v in ExpandStringList(list) <==> v in list && v != ""
  {
    if list != [] {
      ExpandStringListMembers(list[1..]);
      assert list == [list[0]] + list[1..];
    }
  }

  lemma {:induction false} SomeElementValidates(cfg: Config, rule: FilterRule, values: seq<string>, items: seq<Value>)
    returns (e: Value)
    requires ValidateElements(cfg, rule, values, items) == Ok(true)
    ensures e in items && ValidateScalar(cfg, rule, values, e) == Ok(true)
  {
    if ValidateScalar(cfg, rule, values, items[0]) == Ok(true) {
      e := items[0];
    } else {
      e := SomeElementValidates(cfg, rule, values, items[1..]);
    }
  }

  /** A value the client accepts for a pushed-down filter equals one of the alternatives sent. */
  lemma AcceptedScalarWasSent(cfg: Config, rule: FilterRule, alternatives: seq<Value>, item: Value)
    requires PushedDown(cfg, rule) && Convert(cfg.attributes[rule.name].typeFunc, rule.values) == Ok(alternatives)
    requires ValidateScalar(cfg, rule, ExpandStringList(rule.values), item) == Ok(true)
    ensures item in alternatives
  {
    var values := ExpandStringList(rule.values);
    var typeFunc := cfg.attributes[rule.name].typeFunc;
    ExpandStringListMembers(rule.values);
    if values != [] {
      ConvertKeepsMembers(typeFunc, values, rule.values, item);
    }
  }

  /** An item the client accepts for a pushed-down filter satisfies that filter's clause. */
  lemma AcceptedSatisfiesClause(
    cfg: Config, eq: (Value, Value) -> bool, rule: FilterRule, clause: Clause, item: Item
  )
    requires Reflexive(eq) && PushedDown(cfg, rule) && clause.name == rule.name
    requires Convert(cfg.attributes[rule.name].typeFunc, rule.values) == Ok(clause.alternatives)
    requires Evaluate(cfg, rule, item) == Ok(true)
    ensures Satisfies(eq, clause, item)
  {
    var value := item[rule.name];
    var values := ExpandStringList(rule.values);
    if value.IntSlice? || value.StrSlice? {
      ElementsHeld(value);
      var e := SomeElementValidates(cfg, rule, values, Elements(value));
      AcceptedScalarWasSent(cfg, rule, clause.alternatives, e);
      assert eq(e, e);
    } else {
      AcceptedScalarWasSent(cfg, rule, clause.alternatives, value);
      assert eq(value, value);
    }
  }

  /** The server never withholds an item that the client accepts. */
  lemma {:induction false} AcceptedIsServed(
    cfg: Config, eq: (Value, Value) -> bool, filters: seq<FilterRule>, q: Query, item: Item
  )
    requires Reflexive(eq) && IsQueryFor(cfg, filters, q) && Matches(cfg, filters, item) == Ok(true)
    ensures Admits(eq, q, item)
    decreases |filters|
  {
    if filters != [] {
      if PushedDown(cfg, filters[0]) {
        AcceptedSatisfiesClause(cfg, eq, filters[0], q[0], item);
        AcceptedIsServed(cfg, eq, filters[1..], q[1..], item);
        forall i | 0 <= i < |q| ensures Satisfies(eq, q[i], item) {
          assert i > 0 ==> q[i] == q[1..][i - 1];
        }
      } else {
        AcceptedIsServed(cfg, eq, filters[1..], q, item);
      }
    }
  }

  /** Filtering a list fails exactly when some item of it makes a filter fail. */
  lemma {:induction false} SelectFailsIff(cfg: Config, filters: seq<FilterRule>, items: seq<Item>)
    ensures Select(cfg, filters, items).Err? <==> exists item :: item in items && Matches(cfg, filters, item).Err?
  {
    if items != [] {
      SelectFailsIff(cfg, filters, items[1..]);
      assert items == [items[0]] + items[1..];
      if Matches(cfg, filters, items[0]).Err? {
        assert items[0] in items;
      } else if item :| item in items && Matches(cfg, filters, item).Err? {
        assert item in items[1..];
      }
    }
  }

  lemma {:induction false} ServedMembers(eq: (Value, Value) -> bool, q: Query, items: seq<Item>)
    ensures forall item :: item in Serve(eq, q, items) <==> item in items && Admits(eq, q, item)
  {
    if items != [] {
      ServedMembers(eq, q, items[1..]);
      assert items == [items[0]] + items[1..];
    }
  }

  /** Filtering what the server returns fails exactly when an item that makes a filter fail is returned. */
  lemma ServedFailsIff(
    cfg: Config, eq: (Value, Value) -> bool, filters: seq<FilterRule>, q: Query, items: seq<Item>
  )
    requires IsQueryFor(cfg, filters, q)
    ensures Select(cfg, filters, Serve(eq, q, items)).Err?
            <==> exists item :: item in items && ServerAcceptsAll(cfg, eq, filters, item)
                                && Matches(cfg, filters, item).Err?
  {
    SelectFailsIff(cfg, filters, Serve(eq, q, items));
    ServedMembers(eq, q, items);
    forall item ensures Admits(eq, q, item) <==> ServerAcceptsAll(cfg, eq, filters, item) {
      QueryMeaning(cfg, eq, filters, q, item);
    }
  }

  /**
   Pushdown preserves meaning, for every server equality and item list: filtering what the server returns
   gives the items that filtering the full list gives. No new error can appear, and one on the full list
   disappears exactly when the server withholds every item that causes one.
   */
  lemma {:induction false} PushdownPreservesMeaning(
    cfg: Config, eq: (Value, Value) -> bool, filters: seq<FilterRule>, q: Query, items: seq<Item>
  )
    requires Reflexive(eq) && IsQueryFor(cfg, filters, q)
    ensures Select(cfg, filters, items).Ok? ==>
              Select(cfg, filters, Serve(eq, q, items)) == Select(cfg, filters, items)
    ensures Select(cfg, filters, Serve(eq, q, items)).Err? ==> Select(cfg, filters, items).Err?
    ensures Select(cfg, filters, Serve(eq, q, items)).Err?
            <==> exists item :: item in items && ServerAcceptsAll(cfg, eq, filters, item)
                                && Matches(cfg, filters, item).Err?
  {
    ServedFailsIff(cfg, eq, filters, q, items);
    if items != [] {
      PushdownPreservesMeaning(cfg, eq, filters, q, items[1..]);
      if Matches(cfg, filters, items[0]) == Ok(true) {
        AcceptedIsServed(cfg, eq, filters, q, items[0]);
      }
      var served, rest := Serve(eq, q, items[1..]), Select(cfg, filters, items[1..]);
      assert rest.Ok? ==> [] + rest.value == rest.value;
      if Admits(eq, q, items[0]) {
        assert ([items[0]] + served)[1..] == served;
      } else {
        assert Serve(eq, q, items) == served;
      }
    }
  }

  /** The items that the client accepts, in order, whatever becomes of the others. */
  ghost function Matching(cfg: Config, filters: seq<FilterRule>, items: seq<Item>): seq<Item> {
    if items == [] then []
    else
      (if Matches(cfg, filters, items[0]) == Ok(true) then [items[0]] else []) + Matching(cfg, filters, items[1..])
  }

  /** What filtering the served items returns, even when filtering everything fails. */
  lemma {:induction false} ServedSelection(
    cfg: Config, eq: (Value, Value) -> bool, filters: seq<FilterRule>, q: Query, items: seq<Item>
  )
    requires Reflexive(eq) && IsQueryFor(cfg, filters, q) && Select(cfg, filters, Serve(eq, q, items)).Ok?
    ensures Select(cfg, filters, Serve(eq, q, items)) == Ok(Matching(cfg, filters, items))
  {
    if items != [] {
      var served, rest := Serve(eq, q, items[1..]), Matching(cfg, filters, items[1..]);
      assert [] + rest == rest;
      if Admits(eq, q, items[0]) {
        assert ([items[0]] + served)[1..] == served;
      } else {
        assert Serve(eq, q, items) == served;
        if Matches(cfg, filters, items[0]) == Ok(true) {
          AcceptedIsServed(cfg, eq, filters, q, items[0]);
        }
      }
      ServedSelection(cfg, eq, filters, q, items[1..]);
    }
  }

  /**
   `FilterDataSource`: compile, let the server select, filter again. It fails exactly when the filter list
   does not compile or the server returns an item that makes a filter fail, and otherwise returns exactly the
   items the client accepts, even where filtering everything would have failed.
   */
  method FilterDataSource(
    cfg: Config, ghost eq: (Value, Value) -> bool, filters: seq<FilterRule>, ghost stored: seq<Item>,
    list: Query -> seq<Item>
  ) returns (r: Result<seq<Item>, FilterError>)
    requires Reflexive(eq) && forall q :: list(q) == Serve(eq, q, stored)
    ensures Select(cfg, filters, stored).Ok? ==> (r == Select(cfg, filters, stored) <==> Compiles(cfg, filters))
    ensures r.Err?
            <==> || !Compiles(cfg, filters)
                 || exists item :: item in stored && ServerAcceptsAll(cfg, eq, filters, item)
                                   && Matches(cfg, filters, item).Err?
    ensures Compiles(cfg, filters) && r.Err? ==> Select(cfg, filters, stored).Err?
    ensures r.Ok? ==> r == Ok(Matching(cfg, filters, stored))
  {
    var q := ConstructFilterString(cfg, filters);
    if q.Err? {
      return Err(q.error);
    }
    PushdownPreservesMeaning(cfg, eq, filters, q.value, stored);
    r := FilterResults(cfg, filters, list(q.value));
    if r.Ok? {
      ServedSelection(cfg, eq, filters, q.value, stored);
    }
  }

  /**
   Compilation is stricter than evaluation: an empty value on an integer attribute is dropped by the
   client, which then matches nothing, but stops the compilation.
   */
  lemma EmptyValueStopsCompilation(compile: string -> Option<string -> bool>)
    ensures var cfg := Config(map["id" := FilterAttribute(true, FilterTypeInt)], compile);
            var filters := [FilterRule("id", [""], "exact")];
            Select(cfg, filters, [map["id" := Int(1)]]) == Ok([]) && !Compiles(cfg, filters)
  {
    var cfg := Config(map["id" := FilterAttribute(true, FilterTypeInt)], compile);
    var rule := FilterRule("id", [""], "exact");
    var item: Item := map["id" := Int(1)];
    assert ExpandStringList([""]) == [];
    assert Evaluate(cfg, rule, item) == Ok(false);
    assert Matches(cfg, [rule], item) == Ok(false);
    assert [item][1..] == [];
    assert FilterTypeInt("").None?;
    assert [rule][0] == rule && PushedDown(cfg, rule) && "" in rule.values;
  }

  // ---------------------------------------------------------------- when evaluation fails

  /** Some value is bad, and no value before it is good: the matchers reach it. */
  ghost predicate Reaches(values: seq<Value>, bad: Value -> bool, good: Value -> bool) {
    exists i :: 0 <= i < |values| && bad(values[i]) && forall j :: 0 <= j < i ==> !good(values[j])
  }

  lemma ReachesHead(values: seq<Value>, bad: Value -> bool, good: Value -> bool)
    requires values != []
    ensures bad(values[0]) ==> Reaches(values, bad, good)
    ensures !bad(values[0]) ==> (Reaches(values, bad, good) <==> !good(values[0]) && Reaches(values[1..], bad, good))
  {
    if !bad(values[0]) {
      if i :| 0 <= i < |values| && bad(values[i]) && forall j :: 0 <= j < i ==> !good(values[j]) {
        assert values[1..][i - 1] == values[i];
        assert forall j :: 0 <= j < i - 1 ==> values[1..][j] == values[j + 1];
      }
      if !good(values[0]) && Reaches(values[1..], bad, good) {
        var i :| 0 <= i < |values[1..]| && bad(values[1..][i]) && forall j :: 0 <= j < i ==> !good(values[1..][j]);
        assert values[i + 1] == values[1..][i];
        assert forall j :: 1 <= j < i + 1 ==> values[j] == values[1..][j - 1];
      }
    }
  }

  /** A value that a substring or regular expression filter cannot use. */
  ghost predicate Unusable(compile: string -> Option<string -> bool>, regex: bool, v: Value) {
    !v.Str? || (regex && compile(v.s).None?)
  }

  ghost predicate Hits(compile: string -> Option<string -> bool>, regex: bool, s: string, v: Value) {
    v.Str? && if regex then compile(v.s).Some? && compile(v.s).value(s) else HasPart(s, v.s)
  }

  lemma {:induction false} MatchersFailIff(compile: string -> Option<string -> bool>, values: seq<Value>, s: string)
    ensures MatchSubstring(values, s).Err?
            <==> Reaches(values, v => Unusable(compile, false, v), v => Hits(compile, false, s, v))
    ensures MatchRegex(compile, values, s).Err?
            <==> Reaches(values, v => Unusable(compile, true, v), v => Hits(compile, true, s, v))
  {
    if values != [] {
      if values[0].Str? {
        ContainsIff(s, values[0].s);
      }
      ReachesHead(values, v => Unusable(compile, false, v), v => Hits(compile, false, s, v));
      ReachesHead(values, v => Unusable(compile, true, v), v => Hits(compile, true, s, v));
      MatchersFailIff(compile, values[1..], s);
    }
  }

  predicate Substring(matchBy: string) {
    matchBy == "substring" || matchBy == "sub"
  }

  predicate Regex(matchBy: string) {
    matchBy == "re" || matchBy == "regex"
  }

  /** converted lists what the values convert to. */
  ghost predicate ConvertsTo(cfg: Config, rule: FilterRule, values: seq<string>, converted: seq<Value>) {
    && |converted| == |values| && (values != [] ==> rule.name in cfg.attributes)
    && forall i :: 0 <= i < |values| ==> cfg.attributes[rule.name].typeFunc(values[i]) == Some(converted[i])
  }

  /**
   A single value cannot be evaluated: the filter's non-empty values do not convert, or they are searched for
   in something that is no text, or one of them cannot be used and none before it matched.
   */
  ghost predicate ScalarFails(cfg: Config, rule: FilterRule, item: Value) {
    var values := ExpandStringList(rule.values);
    || (values != [] && rule.name !in cfg.attributes)
    || (rule.name in cfg.attributes && exists v :: v in values && cfg.attributes[rule.name].typeFunc(v).None?)
    || ((Substring(rule.matchBy) || Regex(rule.matchBy)) && !item.Str?)
    || ((Substring(rule.matchBy) || Regex(rule.matchBy)) &&
        exists converted :: ConvertsTo(cfg, rule, values, converted)
          && Reaches(converted, v => Unusable(cfg.compile, Regex(rule.matchBy), v),
                     v => Hits(cfg.compile, Regex(rule.matchBy), item.s, v)))
  }

  lemma ConvertedUnique(cfg: Config, rule: FilterRule, values: seq<string>, a: seq<Value>, b: seq<Value>)
    requires ConvertsTo(cfg, rule, values, a) && ConvertsTo(cfg, rule, values, b)
    ensures a == b
  {
    assert forall i :: 0 <= i < |a| ==> Some(a[i]) == Some(b[i]);
  }

  lemma ScalarFailsIff(cfg: Config, rule: FilterRule, item: Value)
    ensures ValidateScalar(cfg, rule, ExpandStringList(rule.values), item).Err? <==> ScalarFails(cfg, rule, item)
  {
    var values := ExpandStringList(rule.values);
    if rule.name in cfg.attributes {
      ConvertOkIff(cfg.attributes[rule.name].typeFunc, values);
    }
    if values == [] || (rule.name in cfg.attributes && Convert(cfg.attributes[rule.name].typeFunc, values).Ok?) {
      var converted := if values == [] then [] else Convert(cfg.attributes[rule.name].typeFunc, values).value;
      assert ConvertsTo(cfg, rule, values, converted);
      forall other | ConvertsTo(cfg, rule, values, other) ensures other == converted {
        ConvertedUnique(cfg, rule, values, other, converted);
      }
      if item.Str? {
        MatchersFailIff(cfg.compile, converted, item.s);
      }
    }
  }

  /** The attribute is missing, has a kind that cannot be filtered on, or one of its values cannot be evaluated. */
  ghost predicate Fails(cfg: Config, rule: FilterRule, item: Item) {
    rule.name !in item ||
    match item[rule.name]
    case Unsupported => true
    case OtherSlice => true
    case IntSlice(ints) =>
      exists i :: 0 <= i < |ints| && ScalarFails(cfg, rule, Int(ints[i]))
                  && forall j :: 0 <= j < i ==> !AcceptsScalar(cfg, rule, Int(ints[j]))
    case StrSlice(strs) =>
      exists i :: 0 <= i < |strs| && ScalarFails(cfg, rule, Str(strs[i]))
                  && forall j :: 0 <= j < i ==> !AcceptsScalar(cfg, rule, Str(strs[j]))
    case other => ScalarFails(cfg, rule, other)
  }

  lemma {:induction false} ElementsFailIff(cfg: Config, rule: FilterRule, items: seq<Value>)
    ensures ValidateElements(cfg, rule, ExpandStringList(rule.values), items).Err?
            <==> Reaches(items, v => ScalarFails(cfg, rule, v), v => AcceptsScalar(cfg, rule, v))
  {
    if items != [] {
      ReachesHead(items, v => ScalarFails(cfg, rule, v), v => AcceptsScalar(cfg, rule, v));
      ScalarFailsIff(cfg, rule, items[0]);
      if ValidateScalar(cfg, rule, ExpandStringList(rule.values), items[0]).Ok? {
        ScalarMeaning(cfg, rule, items[0]);
      }
      ElementsFailIff(cfg, rule, items[1..]);
    }
  }

  /** Exactly when one filter fails on an item. */
  lemma EvaluateFailsIff(cfg: Config, rule: FilterRule, item: Item)
    ensures Evaluate(cfg, rule, item).Err? <==> Fails(cfg, rule, item)
  {
    if rule.name in item {
      var value := item[rule.name];
      if value.IntSlice? || value.StrSlice? {
        var items := Elements(value);
        ElementsFailIff(cfg, rule, items);
        assert value.IntSlice? ==> forall i :: 0 <= i < |items| ==> items[i] == Int(value.ints[i]);
        assert value.StrSlice? ==> forall i :: 0 <= i < |items| ==> items[i] == Str(value.strs[i]);
      } else {
        ScalarFailsIff(cfg, rule, value);
      }
    }
  }

  /** Filter k fails on the item, and all before it accept the item. */
  ghost predicate FailsAt(cfg: Config, filters: seq<FilterRule>, item: Item, k: nat) {
    k < |filters| && Fails(cfg, filters[k], item) && forall j :: 0 <= j < k ==> Accepts(cfg, filters[j], item)
  }

  lemma FailsAtShift(cfg: Config, filters: seq<FilterRule>, item: Item, k: nat)
    requires filters != [] && Accepts(cfg, filters[0], item)
    ensures FailsAt(cfg, filters[1..], item, k) <==> FailsAt(cfg, filters, item, k + 1)
  {
    assert forall i :: 0 <= i < |filters[1..]| ==> filters[1..][i] == filters[i + 1];
    assert forall i :: 1 <= i < |filters| ==> filters[i] == filters[1..][i - 1];
  }

  /** A filter list fails on an item exactly when one filter does and all before it accept. */
  lemma {:induction false} MatchesFailsIff(cfg: Config, filters: seq<FilterRule>, item: Item)
    ensures Matches(cfg, filters, item).Err? <==> exists k :: FailsAt(cfg, filters, item, k)
  {
    if filters != [] {
      var first := filters[0];
      EvaluateFailsIff(cfg, first, item);
      if Fails(cfg, first, item) {
        assert FailsAt(cfg, filters, item, 0);
      } else {
        EvaluateMeaning(cfg, first, item);
        MatchesFailsIff(cfg, filters[1..], item);
        if Accepts(cfg, first, item) {
          if k: nat :| FailsAt(cfg, filters[1..], item, k) {
            FailsAtShift(cfg, filters, item, k);
          }
          if k: nat :| FailsAt(cfg, filters, item, k) {
            FailsAtShift(cfg, filters, item, k - 1);
          }
        }
      }
    }
  }

  /** Every error, and every panic, of a filter on an item names its cause. */
  ghost predicate NamesCause(cfg: Config, rule: FilterRule, item: Item, e: FilterError) {
    match e
    case NotAnAttribute(name) => name == rule.name && name !in item
    case UnsupportedKind => rule.name in item && item[rule.name].Unsupported?
    case UnknownSliceType => rule.name in item && item[rule.name].OtherSlice?
    case NoConverter(name) => name == rule.name && name !in cfg.attributes && exists v :: v in rule.values && v != ""
    case ConversionFailed(v) =>
      v in rule.values && v != "" && rule.name in cfg.attributes && cfg.attributes[rule.name].typeFunc(v).None?
    case NotAString(name) =>
      name == rule.name && (Substring(rule.matchBy) || Regex(rule.matchBy))
      && rule.name in item && !item[rule.name].Str? && !item[rule.name].StrSlice?
    case BadPattern(pattern) => Regex(rule.matchBy) && cfg.compile(pattern).None?
    case NotText =>
      (Substring(rule.matchBy) || Regex(rule.matchBy)) && rule.name in cfg.attributes
      && exists v :: v in rule.values && v != "" && cfg.attributes[rule.name].typeFunc(v).Some?
                     && !cfg.attributes[rule.name].typeFunc(v).value.Str?
  }

  lemma {:induction false} MatcherErrors(compile: string -> Option<string -> bool>, values: seq<Value>, s: string)
    ensures MatchSubstring(values, s).Err? ==>
              MatchSubstring(values, s).error == NotText && exists i :: 0 <= i < |values| && !values[i].Str?
    ensures MatchRegex(compile, values, s).Err? ==>
              match MatchRegex(compile, values, s).error
              case NotText => exists i :: 0 <= i < |values| && !values[i].Str?
              case BadPattern(p) => compile(p).None?
              case _ => false
  {
    if values != [] {
      MatcherErrors(compile, values[1..], s);
      assert forall i :: 0 <= i < |values[1..]| ==> values[1..][i] == values[i + 1];
    }
  }

  lemma ScalarErrors(cfg: Config, rule: FilterRule, item: Item, value: Value)
    requires ValidateScalar(cfg, rule, ExpandStringList(rule.values), value).Err?
    requires rule.name in item && (value.Str? || (!item[rule.name].Str? && !item[rule.name].StrSlice?))
    ensures NamesCause(cfg, rule, item, ValidateScalar(cfg, rule, ExpandStringList(rule.values), value).error)
  {
    var values := ExpandStringList(rule.values);
    ExpandStringListMembers(rule.values);
    if rule.name !in cfg.attributes {
      assert values != [] ==> values[0] in values;
    } else {
      var typeFunc := cfg.attributes[rule.name].typeFunc;
      ConvertFailure(typeFunc, values);
      ConvertOkIff(typeFunc, values);
      var converted := Convert(typeFunc, values);
      if converted.Ok? && value.Str? {
        MatcherErrors(cfg.compile, converted.value, value.s);
        if i :| 0 <= i < |converted.value| && !converted.value[i].Str? {
          assert values[i] in values;
        }
      }
    }
  }

  lemma {:induction false} ElementErrors(cfg: Config, rule: FilterRule, item: Item, items: seq<Value>)
    requires ValidateElements(cfg, rule, ExpandStringList(rule.values), items).Err?
    requires rule.name in item && forall v :: v in items ==> v.Str? || item[rule.name].IntSlice?
    ensures NamesCause(cfg, rule, item, ValidateElements(cfg, rule, ExpandStringList(rule.values), items).error)
  {
    if ValidateScalar(cfg, rule, ExpandStringList(rule.values), items[0]).Err? {
      ScalarErrors(cfg, rule, item, items[0]);
    } else {
      assert items == [items[0]] + items[1..];
      ElementErrors(cfg, rule, item, items[1..]);
    }
  }

  lemma ErrorsNameTheirCause(cfg: Config, rule: FilterRule, item: Item)
    ensures Evaluate(cfg, rule, item).Err? ==> NamesCause(cfg, rule, item, Evaluate(cfg, rule, item).error)
  {
    if rule.name in item && Evaluate(cfg, rule, item).Err? {
      var value := item[rule.name];
      if value.IntSlice? || value.StrSlice? {
        ElementErrors(cfg, rule, item, Elements(value));
      } else if !value.Unsupported? && !value.OtherSlice? {
        ScalarErrors(cfg, rule, item, value);
      }
    }
  }

  /** e is what filter k fails with on the item, and names its cause. */
  ghost predicate ErrorAt(cfg: Config, filters: seq<FilterRule>, item: Item, e: FilterError, k: nat) {
    FailsAt(cfg, filters, item, k) && Evaluate(cfg, filters[k], item) == Err(e) && NamesCause(cfg, filters[k], item, e)
  }

  lemma {:induction false} MatchesError(cfg: Config, filters: seq<FilterRule>, item: Item) returns (k: nat)
    requires Matches(cfg, filters, item).Err?
    ensures ErrorAt(cfg, filters, item, Matches(cfg, filters, item).error, k)
  {
    EvaluateFailsIff(cfg, filters[0], item);
    if Evaluate(cfg, filters[0], item).Err? {
      ErrorsNameTheirCause(cfg, filters[0], item);
      k := 0;
    } else {
      EvaluateMeaning(cfg, filters[0], item);
      var rest := MatchesError(cfg, filters[1..], item);
      FailsAtShift(cfg, filters, item, rest);
      k := rest + 1;
    }
  }

  /** When `FilterResults` fails, it reports what some filter failed with on the first item that fails. */
  lemma {:induction false} SelectError(cfg: Config, filters: seq<FilterRule>, items: seq<Item>)
    returns (i: nat, k: nat)
    requires Select(cfg, filters, items).Err?
    ensures i < |items| && ErrorAt(cfg, filters, items[i], Select(cfg, filters, items).error, k)
    ensures forall j :: 0 <= j < i ==> Matches(cfg, filters, items[j]).Ok?
  {
    if Matches(cfg, filters, items[0]).Err? {
      i := 0;
      k := MatchesError(cfg, filters, items[0]);
    } else {
      var rest;
      rest, k := SelectError(cfg, filters, items[1..]);
      i := rest + 1;
      assert forall j :: 1 <= j < i ==> items[j] == items[1..][j - 1];
    }
  }

  // ---------------------------------------------------------------- filters on the three common types

  /** An exact filter on a text, integer or boolean attribute compares with the value its texts stand for. */
  lemma TypedFilters(cfg: Config, rule: FilterRule, item: Item)
    requires rule.matchBy == "exact" && rule.name in item && rule.name in cfg.attributes
    ensures cfg.attributes[rule.name].typeFunc == FilterTypeString && item[rule.name].Str? ==>
              (Accepts(cfg, rule, item) <==> item[rule.name].s != "" && item[rule.name].s in rule.values)
    ensures cfg.attributes[rule.name].typeFunc == FilterTypeInt && item[rule.name].Int? ==>
              (Accepts(cfg, rule, item) <==> exists v :: v in rule.values && Atoi(v) == Some(item[rule.name].n))
    ensures cfg.attributes[rule.name].typeFunc == FilterTypeBool && item[rule.name].Bool? ==>
              (Accepts(cfg, rule, item)
               <==> exists v :: v in rule.values
                                && v in if item[rule.name].b then {"1", "t", "T", "TRUE", "true", "True"}
                                        else {"0", "f", "F", "FALSE", "false", "False"})
  {
  }

  /** Every text converts to itself, a printed integer to that integer, and nothing else to an integer or boolean. */
  lemma ConvertersMeaning(s: string, n: GoInt)
    ensures FilterTypeString(s) == Some(Str(s))
    ensures FilterTypeInt(Itoa(n)) == Some(Int(n))
    ensures FilterTypeInt(s).Some? <==> Atoi(s).Some?
    ensures FilterTypeBool(s).Some?
            <==> s in {"1", "t", "T", "TRUE", "true", "True", "0", "f", "F", "FALSE", "false", "False"}
  {
    AtoiItoa(n);
  }

  /** Dropping empty strings keeps the order of the others. */
  lemma {:induction false} ExpandStringListAppend(xs: seq<string>, ys: seq<string>)
    ensures ExpandStringList(xs + ys) == ExpandStringList(xs) + ExpandStringList(ys)
  {
    if xs == [] {
      assert xs + ys == ys;
    } else {
      var head := if xs[0] != "" then [xs[0]] else [];
      calc {
        ExpandStringList(xs + ys);
        { assert (xs + ys)[0] == xs[0] && (xs + ys)[1..] == xs[1..] + ys; }
        head + ExpandStringList(xs[1..] + ys);
        { ExpandStringListAppend(xs[1..], ys); }
        head + (ExpandStringList(xs[1..]) + ExpandStringList(ys));
        head + ExpandStringList(xs[1..]) + ExpandStringList(ys);
      }
    }
  }

  /** An item is kept by a text in the middle of its attribute. */
  lemma SubstringExample(cfg: Config)
    requires "label" in cfg.attributes && cfg.attributes["label"].typeFunc == FilterTypeString
    ensures Accepts(cfg, FilterRule("label", ["db", "web"], "substring"), map["label" := Str("my-web-1")])
  {
    assert "my-web-1" == "my-" + "web" + "-1" && HasPart("my-web-1", "web");
    assert "web" == ["db", "web"][1] && FilterTypeString("web") == Some(Str("web"));
  }

  // ---------------------------------------------------------------- when evaluation cannot fail

  predicate Supported(value: Value) {
    !value.Unsupported? && !value.OtherSlice?
  }

  predicate IsText(value: Value) {
    value.Str? || value.StrSlice?
  }

  /** What a caller can check: the attribute exists with a supported kind, and values convert and fit. */
  ghost predicate WellTyped(cfg: Config, rule: FilterRule, item: Item) {
    && rule.name in item && Supported(item[rule.name]) && rule.name in cfg.attributes
    && (forall v :: v in rule.values && v != "" ==> cfg.attributes[rule.name].typeFunc(v).Some?)
    && (rule.matchBy != "exact" ==>
          IsText(item[rule.name]) &&
          forall v :: v in rule.values && v != "" ==>
            cfg.attributes[rule.name].typeFunc(v).value.Str? &&
            cfg.compile(cfg.attributes[rule.name].typeFunc(v).value.s).Some?)
  }

  lemma {:induction false} MatchersSucceed(compile: string -> Option<string -> bool>, values: seq<Value>, s: string)
    requires forall i :: 0 <= i < |values| ==> values[i].Str? && compile(values[i].s).Some?
    ensures MatchSubstring(values, s).Ok? && MatchRegex(compile, values, s).Ok?
  {
    if values != [] {
      MatchersSucceed(compile, values[1..], s);
    }
  }

  lemma ScalarSucceeds(cfg: Config, rule: FilterRule, item: Item, value: Value)
    requires WellTyped(cfg, rule, item) && (IsText(item[rule.name]) ==> value.Str?)
    ensures ValidateScalar(cfg, rule, ExpandStringList(rule.values), value).Ok?
  {
    var values := ExpandStringList(rule.values);
    var typeFunc := cfg.attributes[rule.name].typeFunc;
    ExpandStringListMembers(rule.values);
    ConvertOkIff(typeFunc, values);
    var converted := Convert(typeFunc, values).value;
    if rule.matchBy != "exact" {
      forall i | 0 <= i < |converted| ensures converted[i].Str? && cfg.compile(converted[i].s).Some? {
        assert values[i] in values;
      }
      MatchersSucceed(cfg.compile, converted, value.s);
    }
  }

  lemma {:induction false} ElementsSucceed(cfg: Config, rule: FilterRule, item: Item, values: seq<Value>)
    requires WellTyped(cfg, rule, item)
    requires IsText(item[rule.name]) ==> forall i :: 0 <= i < |values| ==> values[i].Str?
    ensures ValidateElements(cfg, rule, ExpandStringList(rule.values), values).Ok?
  {
    if values != [] {
      ScalarSucceeds(cfg, rule, item, values[0]);
      ElementsSucceed(cfg, rule, item, values[1..]);
    }
  }

  lemma {:induction false} MatchesSucceeds(cfg: Config, filters: seq<FilterRule>, item: Item)
    requires forall i :: 0 <= i < |filters| ==> WellTyped(cfg, filters[i], item)
    ensures Matches(cfg, filters, item).Ok?
  {
    if filters != [] {
      var rule := filters[0];
      var value := item[rule.name];
      if value.IntSlice? || value.StrSlice? {
        ElementsSucceed(cfg, rule, item, Elements(value));
      } else {
        ScalarSucceeds(cfg, rule, item, value);
      }
      MatchesSucceeds(cfg, filters[1..], item);
    }
  }

  /** On well-typed items evaluation never fails, so pushdown is invisible. */
  lemma {:induction false} PushdownInvisibleWhenWellTyped(
    cfg: Config, eq: (Value, Value) -> bool, filters: seq<FilterRule>, q: Query, items: seq<Item>
  )
    requires Reflexive(eq) && IsQueryFor(cfg, filters, q)
    requires forall i, j :: 0 <= i < |filters| && 0 <= j < |items| ==> WellTyped(cfg, filters[i], items[j])
    ensures Select(cfg, filters, items).Ok?
    ensures Select(cfg, filters, Serve(eq, q, items)) == Select(cfg, filters, items)
  {
    if items != [] {
      forall i, j | 0 <= i < |filters| && 0 <= j < |items[1..]| ensures WellTyped(cfg, filters[i], items[1..][j]) {
        assert items[1..][j] == items[j + 1];
      }
      PushdownInvisibleWhenWellTyped(cfg, eq, filters, q, items[1..]);
      MatchesSucceeds(cfg, filters, items[0]);
    }
    PushdownPreservesMeaning(cfg, eq, filters, q, items);
  }

  // ---------------------------------------------------------------- staging and reordering

  lemma {:induction false} MatchesAppend(cfg: Config, f1: seq<FilterRule>, f2: seq<FilterRule>, item: Item)
    ensures Matches(cfg, f1 + f2, item)
            == if Matches(cfg, f1, item) == Ok(true) then Matches(cfg, f2, item) else Matches(cfg, f1, item)
  {
    if f1 == [] {
      assert f1 + f2 == f2;
    } else {
      MatchesAppend(cfg, f1[1..], f2, item);
      assert (f1 + f2)[1..] == f1[1..] + f2;
    }
  }

  /** Filtering by two lists at once succeeds exactly when filtering in two stages does, with the same result. */
  lemma {:induction false} FilterInStages(cfg: Config, f1: seq<FilterRule>, f2: seq<FilterRule>, items: seq<Item>)
    ensures Select(cfg, f1 + f2, items).Ok?
            <==> Select(cfg, f1, items).Ok? && Select(cfg, f2, Select(cfg, f1, items).value).Ok?
    ensures Select(cfg, f1 + f2, items).Ok? ==>
              Select(cfg, f1 + f2, items) == Select(cfg, f2, Select(cfg, f1, items).value)
  {
    if items != [] {
      FilterInStages(cfg, f1, f2, items[1..]);
      MatchesAppend(cfg, f1, f2, items[0]);
      var rest := Select(cfg, f1, items[1..]);
      var both := Select(cfg, f1 + f2, items[1..]);
      assert both.Ok? ==> [] + both.value == both.value;
      if rest.Ok? {
        assert ([items[0]] + rest.value)[1..] == rest.value;
        assert [] + rest.value == rest.value;
      }
    }
  }

  /** A list accepts an item exactly when each of its filters does. */
  lemma {:induction false} AcceptsIffEachDoes(cfg: Config, filters: seq<FilterRule>, item: Item)
    ensures Matches(cfg, filters, item) == Ok(true)
            <==> forall i :: 0 <= i < |filters| ==> Evaluate(cfg, filters[i], item) == Ok(true)
  {
    if filters != [] {
      AcceptsIffEachDoes(cfg, filters[1..], item);
    }
  }

  /** Two lists with the same filters, in whatever order and multiplicity, agree whenever both succeed. */
  lemma {:induction false} FilterOrderIrrelevant(
    cfg: Config, f1: seq<FilterRule>, f2: seq<FilterRule>, items: seq<Item>
  )
    requires forall f :: f in f1 <==> f in f2
    requires Select(cfg, f1, items).Ok? && Select(cfg, f2, items).Ok?
    ensures Select(cfg, f1, items) == Select(cfg, f2, items)
  {
    if items != [] {
      FilterOrderIrrelevant(cfg, f1, f2, items[1..]);
      AcceptsIffEachDoes(cfg, f1, items[0]);
      AcceptsIffEachDoes(cfg, f2, items[0]);
      assert forall i :: 0 <= i < |f1| ==> f1[i] in f2;
      assert forall i :: 0 <= i < |f2| ==> f2[i] in f1;
    }
  }
}
