/**
 Firewall rules between the Terraform model and the API
 (`Expands`, `ExpandFirewallRules` and `FlattenFirewallRules` in `linode/firewall/framework_models.go`).
 */
module FirewallRules {
  import opened Wrappers
  import opened Attributes

  type AddressList = Attr<seq<Attr<string>>>

  /** Go's RuleModel; its Label is called title here, a word Dafny does not reserve. */
  datatype RuleModel = RuleModel(
    title: Attr<string>, action: Attr<string>, ports: Attr<string>, protocol: Attr<string>,
    ipv4: AddressList, ipv6: AddressList, description: Attr<string>
  )

  /** `linodego.FirewallRule`; the address lists are pointers. */
  datatype ApiRule = ApiRule(
    action: string, title: string, ports: string, protocol: string, description: string,
    ipv4: Option<seq<string>>, ipv6: Option<seq<string>>
  )

  /** Go's zero value of RuleModel. */
  const ZERO_RULE := RuleModel(Null, Null, Null, Null, Null, Null, Null)

  // ---------------------------------------------------------------- model to API

  /** `ElementsAs` into a pointer to a string slice: a null list is nil, anything unknown is an error. */
  function ElementsAsStrings(list: AddressList): Option<Option<seq<string>>> {
    match list
    case Unknown => None
    case Null => Some(None)
    case Known(elements) =>
      if forall i :: 0 <= i < |elements| ==> elements[i].Known? then
        Some(Some(seq(|elements|, i requires 0 <= i < |elements| => elements[i].value)))
      else None
  }

  /** `Expands`: None stands for an error diagnostic. */
  function Expand(rule: RuleModel): Option<ApiRule> {
    var ipv4, ipv6 := ElementsAsStrings(rule.ipv4), ElementsAsStrings(rule.ipv6);
    if ipv4.None? || ipv6.None? then None
    else Some(ApiRule(ValueOr(rule.action, ""), ValueOr(rule.title, ""), ValueOr(rule.ports, ""),
                      ValueOr(rule.protocol, ""), ValueOr(rule.description, ""), ipv4.value, ipv6.value))
  }

  /** `expanded` is the API form of the rules, one by one. */
  ghost predicate IsExpansion(rules: seq<RuleModel>, expanded: seq<ApiRule>) {
    |expanded| == |rules| && forall i :: 0 <= i < |rules| ==> Expand(rules[i]) == Some(expanded[i])
  }

  /** `ExpandFirewallRules`: fails exactly when one of the rules does. */
  method ExpandFirewallRules(rules: seq<RuleModel>) returns (r: Option<seq<ApiRule>>)
    ensures r.Some? ==> IsExpansion(rules, r.value)
    ensures r.None? ==> exists i :: 0 <= i < |rules| && Expand(rules[i]).None?
  {
    var expanded: seq<ApiRule>, failed := [], false;
    for i := 0 to |rules|
      invariant failed ==> exists j :: 0 <= j < i && Expand(rules[j]).None?
      invariant !failed ==> IsExpansion(rules[..i], expanded)
    {
      var rule := Expand(rules[i]);
      if rule.None? {
        failed := true;
      } else {
        expanded := expanded + [rule.value];
      }
    }
    assert rules[..|rules|] == rules;
    r := if failed then None else Some(expanded);
  }

  // ---------------------------------------------------------------- API to model

  function StringList(list: Option<seq<string>>): AddressList {
    if list.None? then Null
    else Known(seq(|list.value|, i requires 0 <= i < |list.value| => Known(list.value[i])))
  }

  /** The model of an API rule: an empty port string is null, everything else is known. */
  function ModelOf(rule: ApiRule): RuleModel {
    RuleModel(Known(rule.title), Known(rule.action), if rule.ports == "" then Null else Known(rule.ports),
              Known(rule.protocol), StringList(rule.ipv4), StringList(rule.ipv6), Known(rule.description))
  }

  /** One iteration of the loop in `FlattenFirewallRules`. */
  function MergeRule(known: RuleModel, rule: ApiRule, preserveKnown: bool): RuleModel {
    var model := ModelOf(rule);
    RuleModel(
      KeepOrUpdateValue(known.title, model.title, preserveKnown),
      KeepOrUpdateValue(known.action, model.action, preserveKnown),
      KeepOrUpdateValue(known.ports, model.ports, preserveKnown),
      KeepOrUpdateValue(known.protocol, model.protocol, preserveKnown),
      KeepOrUpdateValue(known.ipv4, model.ipv4, preserveKnown),
      KeepOrUpdateValue(known.ipv6, model.ipv6, preserveKnown),
      KeepOrUpdateValue(known.description, model.description, preserveKnown))
  }

  /** Merging position by position; rules without a counterpart stay as they are. */
  function MergeRules(known: seq<RuleModel>, rules: seq<ApiRule>, preserveKnown: bool): (r: seq<RuleModel>)
    ensures |r| == |known|
  {
    seq(|known|, i requires 0 <= i < |known| =>
      if i < |rules| then MergeRule(known[i], rules[i], preserveKnown) else known[i])
  }

  function ModelsOf(rules: seq<ApiRule>): (r: seq<RuleModel>)
    ensures |r| == |rules|
  {
    seq(|rules|, i requires 0 <= i < |rules| => ModelOf(rules[i]))
  }

  /**
   `FlattenFirewallRules`: merges into the given rule slice in place when preserving known values, and
   fills a new slice otherwise. A nil slice (here: null) stays empty when preserving.
   */
  method FlattenFirewallRules(rules: seq<ApiRule>, knownRules: array?<RuleModel>, preserveKnown: bool)
    returns (result: array<RuleModel>)
    modifies if preserveKnown then {knownRules} else {}
    ensures preserveKnown && knownRules == null ==> fresh(result) && result[..] == []
    ensures preserveKnown && knownRules != null ==>
              result == knownRules && result[..] == MergeRules(old(knownRules[..]), rules, true)
    ensures !preserveKnown ==> fresh(result) && result[..] == ModelsOf(rules)
  {
    if preserveKnown && knownRules == null {
      result := new RuleModel[0];
      return;
    }
    if preserveKnown {
      result := knownRules;
    } else {
      result := new RuleModel[|rules|](_ => ZERO_RULE);
    }
    ghost var before := result[..];
    var i := 0;
    while i < result.Length && i < |rules|
      invariant 0 <= i <= result.Length && i <= |rules|
      invariant forall j :: 0 <= j < i ==> result[j] == MergeRule(before[j], rules[j], preserveKnown)
      invariant forall j :: i <= j < result.Length ==> result[j] == before[j]
    {
      result[i] := MergeRule(result[i], rules[i], preserveKnown);
      i := i + 1;
    }
    if preserveKnown {
      assert result[..] == MergeRules(before, rules, true);
    } else {
      assert result[..] == ModelsOf(rules);
    }
  }

  // ---------------------------------------------------------------- round trips

  lemma StringListRoundTrip(list: Option<seq<string>>)
    ensures ElementsAsStrings(StringList(list)) == Some(list)
  {
    if list.Some? {
      var elements := StringList(list).value;
      assert seq(|elements|, i requires 0 <= i < |elements| => elements[i].value) == list.value;
    }
  }

  /** An address list that can be sent is recovered from what was sent. */
  lemma AddressesRoundTrip(list: AddressList)
    requires ElementsAsStrings(list).Some?
    ensures StringList(ElementsAsStrings(list).value) == list
  {
    if list.Known? {
      var strings := ElementsAsStrings(list).value;
      assert StringList(strings).value == list.value;
    }
  }

  /** Every API rule list survives being read into the model and expanded again. */
  lemma ExpandInvertsFlatten(rules: seq<ApiRule>)
    ensures IsExpansion(ModelsOf(rules), rules)
  {
    forall i | 0 <= i < |rules| ensures Expand(ModelsOf(rules)[i]) == Some(rules[i]) {
      StringListRoundTrip(rules[i].ipv4);
      StringListRoundTrip(rules[i].ipv6);
    }
  }

  /** A rule the API can represent without loss. */
  predicate Representable(rule: RuleModel) {
    && rule.title.Known? && rule.action.Known? && rule.protocol.Known? && rule.description.Known?
    && !rule.ports.Unknown? && rule.ports != Known("")
    && ElementsAsStrings(rule.ipv4).Some? && ElementsAsStrings(rule.ipv6).Some?
  }

  /** A rule list survives being expanded and read back exactly when each of its rules is representable. */
  lemma FlattenInvertsExpandIff(rules: seq<RuleModel>)
    ensures (exists expanded :: IsExpansion(rules, expanded) && ModelsOf(expanded) == rules)
            <==> forall i :: 0 <= i < |rules| ==> Representable(rules[i])
  {
    if expanded :| IsExpansion(rules, expanded) && ModelsOf(expanded) == rules {
      forall i | 0 <= i < |rules| ensures Representable(rules[i]) {
        assert rules[i] == ModelOf(expanded[i]) && Expand(rules[i]).Some?;
      }
    }
    if forall i :: 0 <= i < |rules| ==> Representable(rules[i]) {
      assert forall i :: 0 <= i < |rules| ==> Expand(rules[i]).Some?;
      var expanded := seq(|rules|, i requires 0 <= i < |rules| => Expand(rules[i]).value);
      assert IsExpansion(rules, expanded);
      forall i | 0 <= i < |rules| ensures ModelOf(expanded[i]) == rules[i] {
        AddressesRoundTrip(rules[i].ipv4);
        AddressesRoundTrip(rules[i].ipv6);
      }
      assert ModelsOf(expanded) == rules;
    }
  }

  datatype Field = Title | Action | Ports | Protocol | Description

  function Get(rule: RuleModel, field: Field): Attr<string> {
    match field
    case Title => rule.title
    case Action => rule.action
    case Ports => rule.ports
    case Protocol => rule.protocol
    case Description => rule.description
  }

  function GetApi(rule: ApiRule, field: Field): string {
    match field
    case Title => rule.title
    case Action => rule.action
    case Ports => rule.ports
    case Protocol => rule.protocol
    case Description => rule.description
  }

  /** Each field goes to the API field of its name and comes back from it; only an empty port string is null. */
  lemma FieldsKeepTheirNames(rule: RuleModel, api: ApiRule)
    ensures forall f :: Get(ModelOf(api), f) == if f.Ports? && api.ports == "" then Null else Known(GetApi(api, f))
    ensures ElementsAsStrings(ModelOf(api).ipv4) == Some(api.ipv4)
    ensures ElementsAsStrings(ModelOf(api).ipv6) == Some(api.ipv6)
    ensures Expand(rule).Some? <==> ElementsAsStrings(rule.ipv4).Some? && ElementsAsStrings(rule.ipv6).Some?
    ensures Expand(rule).Some? ==>
              && (forall f :: GetApi(Expand(rule).value, f) == if Get(rule, f).Known? then Get(rule, f).value else "")
              && ElementsAsStrings(rule.ipv4) == Some(Expand(rule).value.ipv4)
              && ElementsAsStrings(rule.ipv6) == Some(Expand(rule).value.ipv6)
  {
    StringListRoundTrip(api.ipv4);
    StringListRoundTrip(api.ipv6);
  }

  /** What an address list reads as: nothing for null, the elements in order, and an error with anything unknown. */
  lemma AddressesMeaning(list: AddressList)
    ensures ElementsAsStrings(list).Some?
            <==> list.Null? || (list.Known? && forall i :: 0 <= i < |list.value| ==> list.value[i].Known?)
    ensures ElementsAsStrings(list).Some? ==>
              && (list.Null? <==> ElementsAsStrings(list).value.None?)
              && (list.Known? ==>
                    && |ElementsAsStrings(list).value.value| == |list.value|
                    && forall i :: 0 <= i < |list.value| ==>
                         list.value[i] == Known(ElementsAsStrings(list).value.value[i]))
  {
  }

  /**
   A known-preserving merge never changes a field that is not unknown, fills each unknown field of rule i
   from API rule i, and leaves rules beyond the API's list alone.
   */
  lemma PreservingMergeLaws(known: seq<RuleModel>, rules: seq<ApiRule>, i: nat)
    requires i < |known|
    ensures var merged := MergeRules(known, rules, true)[i];
            && (forall f :: !Get(known[i], f).Unknown? ==> Get(merged, f) == Get(known[i], f))
            && (!known[i].ipv4.Unknown? ==> merged.ipv4 == known[i].ipv4)
            && (!known[i].ipv6.Unknown? ==> merged.ipv6 == known[i].ipv6)
            && (i < |rules| ==>
                  && (forall f :: Get(known[i], f).Unknown? ==> Get(merged, f) == Get(ModelOf(rules[i]), f))
                  && (known[i].ipv4.Unknown? ==> ElementsAsStrings(merged.ipv4) == Some(rules[i].ipv4))
                  && (known[i].ipv6.Unknown? ==> ElementsAsStrings(merged.ipv6) == Some(rules[i].ipv6)))
            && (i >= |rules| ==> merged == known[i])
  {
    if i < |rules| {
      StringListRoundTrip(rules[i].ipv4);
      StringListRoundTrip(rules[i].ipv6);
    }
  }

  /** A planned rule whose known fields the API echoes unchanged; unknown fields impose nothing. */
  predicate Echoable(rule: RuleModel) {
    && !rule.title.Null? && !rule.action.Null? && !rule.protocol.Null? && !rule.description.Null?
    && rule.ports != Known("")
  }

  /**
   Applying rules against an API that stores what it is sent, then reading them back: the state saved by
   the apply equals the refreshed state, position by position, exactly when every planned rule is echoable.
   */
  lemma NoDriftAfterApplyIff(planned: seq<RuleModel>, stored: seq<ApiRule>)
    requires IsExpansion(planned, stored)
    ensures MergeRules(planned, stored, true) == ModelsOf(stored)
            <==> forall i :: 0 <= i < |planned| ==> Echoable(planned[i])
  {
    var saved, refreshed := MergeRules(planned, stored, true), ModelsOf(stored);
    forall i | 0 <= i < |planned| ensures saved[i] == refreshed[i] <==> Echoable(planned[i]) {
      assert Expand(planned[i]) == Some(stored[i]);
      AddressesRoundTrip(planned[i].ipv4);
      AddressesRoundTrip(planned[i].ipv6);
    }
  }
}
