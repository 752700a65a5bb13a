/**
 The `linode_firewall` resource: `Update` and `Read` in `linode/firewall/framework_resource.go`, with the
 merges of `linode/firewall/framework_models.go` they are composed of. Answers of the API other than the
 device endpoints are parameters, functions of the request where there is one; None stands for a failed call.
 */
module FirewallResource {
  import opened Wrappers
  import opened Attributes
  import opened Text
  import opened FirewallDevices
  import opened FirewallReconcile
  import Rules = FirewallRules

  type IDSet = Attr<set<GoInt>>

  /** The attributes of the resource other than its two rule blocks. */
  datatype TopLevel = TopLevel(
    id: Attr<string>, title: Attr<string>, tags: Attr<set<string>>, disabled: Attr<bool>,
    inboundPolicy: Attr<string>, outboundPolicy: Attr<string>,
    linodes: IDSet, nodeBalancers: IDSet, interfaces: IDSet, devices: Attr<seq<Device>>,
    status: Attr<string>, created: Attr<string>, updated: Attr<string>
  )

  const ALL_UNKNOWN := TopLevel(Unknown, Unknown, Unknown, Unknown, Unknown, Unknown,
                                Unknown, Unknown, Unknown, Unknown, Unknown, Unknown, Unknown)

  /** `linodego.Firewall`; its label is called title here. */
  datatype ApiFirewall = ApiFirewall(
    id: GoInt, title: string, tags: set<string>, status: string, inboundPolicy: string, outboundPolicy: string,
    created: Option<string>, updated: Option<string>
  )

  /** `linodego.FirewallRuleSet`, as sent and as answered. */
  datatype ApiRuleSet = ApiRuleSet(
    inbound: seq<Rules.ApiRule>, outbound: seq<Rules.ApiRule>, inboundPolicy: string, outboundPolicy: string
  )

  /** `linodego.FirewallUpdateOptions`; empty strings and a missing tag list are left out of the request. */
  datatype UpdateOptions = UpdateOptions(title: string, tags: Option<set<string>>, status: string)

  const DISABLED := "disabled"
  const ENABLED := "enabled"

  /** What a firewall answer says about each attribute; it is silent about the attached devices. */
  function ResponseOf(f: ApiFirewall): TopLevel {
    TopLevel(Known(Itoa(f.id)), Known(f.title), Known(f.tags), Known(f.status == DISABLED),
             Known(f.inboundPolicy), Known(f.outboundPolicy), Unknown, Unknown, Unknown, Unknown,
             Known(f.status), FromPointer(f.created), FromPointer(f.updated))
  }

  /** `KeepOrUpdateValue` attribute by attribute. */
  function Combine(a: TopLevel, b: TopLevel, preserveKnown: bool): TopLevel {
    TopLevel(
      KeepOrUpdateValue(a.id, b.id, preserveKnown), KeepOrUpdateValue(a.title, b.title, preserveKnown),
      KeepOrUpdateValue(a.tags, b.tags, preserveKnown), KeepOrUpdateValue(a.disabled, b.disabled, preserveKnown),
      KeepOrUpdateValue(a.inboundPolicy, b.inboundPolicy, preserveKnown),
      KeepOrUpdateValue(a.outboundPolicy, b.outboundPolicy, preserveKnown),
      KeepOrUpdateValue(a.linodes, b.linodes, preserveKnown),
      KeepOrUpdateValue(a.nodeBalancers, b.nodeBalancers, preserveKnown),
      KeepOrUpdateValue(a.interfaces, b.interfaces, preserveKnown),
      KeepOrUpdateValue(a.devices, b.devices, preserveKnown), KeepOrUpdateValue(a.status, b.status, preserveKnown),
      KeepOrUpdateValue(a.created, b.created, preserveKnown), KeepOrUpdateValue(a.updated, b.updated, preserveKnown))
  }

  function Merge(a: TopLevel, b: TopLevel): TopLevel {
    Combine(a, b, true)
  }

  /** a with the attached devices of b. */
  function WithDevicesOf(a: TopLevel, b: TopLevel): TopLevel {
    a.(linodes := b.linodes, nodeBalancers := b.nodeBalancers, interfaces := b.interfaces, devices := b.devices)
  }

  /** A preserving merge with an answer that is silent about devices keeps the devices. */
  lemma MergeResponseKeepsDevices(a: TopLevel, f: ApiFirewall)
    ensures WithDevicesOf(Combine(a, ResponseOf(f), true), a) == Merge(a, ResponseOf(f))
  {
  }

  lemma CombineLaws(a: TopLevel, b: TopLevel)
    ensures Merge(a, ALL_UNKNOWN) == a
    ensures Combine(a, b, false) == b
  {
  }

  // ---------------------------------------------------------------- the law of the update merge

  /** Each attribute of r is the first non-unknown of plan, response and state. */
  ghost predicate EachFirstNonUnknown(plan: TopLevel, response: TopLevel, state: TopLevel, r: TopLevel) {
    && IsFirstNonUnknown([plan.id, response.id, state.id], r.id)
    && IsFirstNonUnknown([plan.title, response.title, state.title], r.title)
    && IsFirstNonUnknown([plan.tags, response.tags, state.tags], r.tags)
    && IsFirstNonUnknown([plan.disabled, response.disabled, state.disabled], r.disabled)
    && IsFirstNonUnknown([plan.inboundPolicy, response.inboundPolicy, state.inboundPolicy], r.inboundPolicy)
    && IsFirstNonUnknown([plan.outboundPolicy, response.outboundPolicy, state.outboundPolicy], r.outboundPolicy)
    && IsFirstNonUnknown([plan.linodes, response.linodes, state.linodes], r.linodes)
    && IsFirstNonUnknown([plan.nodeBalancers, response.nodeBalancers, state.nodeBalancers], r.nodeBalancers)
    && IsFirstNonUnknown([plan.interfaces, response.interfaces, state.interfaces], r.interfaces)
    && IsFirstNonUnknown([plan.devices, response.devices, state.devices], r.devices)
    && IsFirstNonUnknown([plan.status, response.status, state.status], r.status)
    && IsFirstNonUnknown([plan.created, response.created, state.created], r.created)
    && IsFirstNonUnknown([plan.updated, response.updated, state.updated], r.updated)
  }

  predicate NoneUnknown(a: TopLevel) {
    && !a.id.Unknown? && !a.title.Unknown? && !a.tags.Unknown? && !a.disabled.Unknown?
    && !a.inboundPolicy.Unknown? && !a.outboundPolicy.Unknown?
    && !a.linodes.Unknown? && !a.nodeBalancers.Unknown? && !a.interfaces.Unknown? && !a.devices.Unknown?
    && !a.status.Unknown? && !a.created.Unknown? && !a.updated.Unknown?
  }

  lemma FirstOfThree<T(!new)>(a: Attr<T>, b: Attr<T>, c: Attr<T>)
    ensures IsFirstNonUnknown([a, b, c], KeepOrUpdateValue(KeepOrUpdateValue(a, b, true), c, true))
  {
    var ab := KeepOrUpdateValue(a, b, true);
    assert MergeChain(a, [b, c]) == MergeChain(ab, [b, c][1..]);
    assert [b, c][1..] == [c];
    assert MergeChain(ab, [c]) == MergeChain(KeepOrUpdateValue(ab, c, true), [c][1..]);
    MergeChainTakesFirst(a, [b, c]);
    assert [a] + [b, c] == [a, b, c];
  }

  /** The attributes an update saves are each the first non-unknown of plan, response and state. */
  lemma UpdateMergeLaw(plan: TopLevel, response: TopLevel, state: TopLevel)
    ensures EachFirstNonUnknown(plan, response, state, Merge(Merge(plan, response), state))
    ensures NoneUnknown(state) ==> NoneUnknown(Merge(Merge(plan, response), state))
    ensures NoneUnknown(plan) ==> Merge(Merge(plan, response), state) == plan
  {
    FirstOfThree(plan.id, response.id, state.id);
    FirstOfThree(plan.title, response.title, state.title);
    FirstOfThree(plan.tags, response.tags, state.tags);
    FirstOfThree(plan.disabled, response.disabled, state.disabled);
    FirstOfThree(plan.inboundPolicy, response.inboundPolicy, state.inboundPolicy);
    FirstOfThree(plan.outboundPolicy, response.outboundPolicy, state.outboundPolicy);
    FirstOfThree(plan.linodes, response.linodes, state.linodes);
    FirstOfThree(plan.nodeBalancers, response.nodeBalancers, state.nodeBalancers);
    FirstOfThree(plan.interfaces, response.interfaces, state.interfaces);
    FirstOfThree(plan.devices, response.devices, state.devices);
    FirstOfThree(plan.status, response.status, state.status);
    FirstOfThree(plan.created, response.created, state.created);
    FirstOfThree(plan.updated, response.updated, state.updated);
  }

  // ---------------------------------------------------------------- the resource model

  /** A rule block: a nil slice is a null list. */
  function Block(rules: array?<Rules.RuleModel>): Attr<seq<Rules.RuleModel>>
    reads if rules == null then {} else {rules}
  {
    if rules == null then Null else Known(rules[..])
  }

  type RuleBlock = Attr<seq<Rules.RuleModel>>

  /** Both rule blocks of a resource. */
  datatype Blocks = Blocks(inbound: RuleBlock, outbound: RuleBlock)

  /** A rule block after the known-preserving merge with the API's rules. */
  function MergedBlock(block: Attr<seq<Rules.RuleModel>>, rules: seq<Rules.ApiRule>): Attr<seq<Rules.RuleModel>> {
    Known(Rules.MergeRules(ValueOr(block, []), rules, true))
  }

  function MergedBlocks(blocks: Blocks, answer: ApiRuleSet): Blocks {
    Blocks(MergedBlock(blocks.inbound, answer.inbound), MergedBlock(blocks.outbound, answer.outbound))
  }

  /** Go's FirewallResourceModel: one record of attributes, and the two rule slices it shares with others. */
  class FirewallResourceModel {
    var attributes: TopLevel
    var inbound: array?<Rules.RuleModel>
    var outbound: array?<Rules.RuleModel>

    constructor (attributes: TopLevel)
      ensures this.attributes == attributes && inbound == null && outbound == null
    {
      this.attributes, inbound, outbound := attributes, null, null;
    }

    function BothBlocks(): Blocks
      reads this, if inbound == null then {} else {inbound}, if outbound == null then {} else {outbound}
    {
      Blocks(Block(inbound), Block(outbound))
    }

    /** `flattenFirewallForResource`: merges an answer into the attributes it speaks about, or overwrites them. */
    method FlattenFirewall(firewall: ApiFirewall, preserveKnown: bool)
      modifies this`attributes
      ensures attributes
              == WithDevicesOf(Combine(old(attributes), ResponseOf(firewall), preserveKnown), old(attributes))
    {
      var a := attributes;
      a := a.(id := KeepOrUpdateValue(a.id, Known(Itoa(firewall.id)), preserveKnown));
      a := a.(title := KeepOrUpdateValue(a.title, Known(firewall.title), preserveKnown));
      a := a.(tags := KeepOrUpdateValue(a.tags, Known(firewall.tags), preserveKnown));
      a := a.(disabled := KeepOrUpdateValue(a.disabled, Known(firewall.status == DISABLED), preserveKnown));
      a := a.(inboundPolicy := KeepOrUpdateValue(a.inboundPolicy, Known(firewall.inboundPolicy), preserveKnown));
      a := a.(outboundPolicy := KeepOrUpdateValue(a.outboundPolicy, Known(firewall.outboundPolicy), preserveKnown));
      a := a.(status := KeepOrUpdateValue(a.status, Known(firewall.status), preserveKnown));
      a := a.(created := KeepOrUpdateValue(a.created, FromPointer(firewall.created), preserveKnown));
      a := a.(updated := KeepOrUpdateValue(a.updated, FromPointer(firewall.updated), preserveKnown));
      attributes := a;
    }

    /** `CopyFrom`; the other model is passed by value, but overwriting shares its rule slices. */
    method CopyFrom(
      other: TopLevel, otherInbound: array?<Rules.RuleModel>, otherOutbound: array?<Rules.RuleModel>,
      preserveKnown: bool
    )
      modifies this
      ensures attributes == Combine(old(attributes), other, preserveKnown)
      ensures inbound == (if preserveKnown then old(inbound) else otherInbound)
      ensures outbound == (if preserveKnown then old(outbound) else otherOutbound)
    {
      var a := attributes;
      a := a.(id := KeepOrUpdateValue(a.id, other.id, preserveKnown));
      a := a.(title := KeepOrUpdateValue(a.title, other.title, preserveKnown));
      a := a.(tags := KeepOrUpdateValue(a.tags, other.tags, preserveKnown));
      a := a.(disabled := KeepOrUpdateValue(a.disabled, other.disabled, preserveKnown));
      a := a.(inboundPolicy := KeepOrUpdateValue(a.inboundPolicy, other.inboundPolicy, preserveKnown));
      a := a.(outboundPolicy := KeepOrUpdateValue(a.outboundPolicy, other.outboundPolicy, preserveKnown));
      a := a.(linodes := KeepOrUpdateValue(a.linodes, other.linodes, preserveKnown));
      a := a.(nodeBalancers := KeepOrUpdateValue(a.nodeBalancers, other.nodeBalancers, preserveKnown));
      a := a.(interfaces := KeepOrUpdateValue(a.interfaces, other.interfaces, preserveKnown));
      a := a.(devices := KeepOrUpdateValue(a.devices, other.devices, preserveKnown));
      a := a.(status := KeepOrUpdateValue(a.status, other.status, preserveKnown));
      a := a.(created := KeepOrUpdateValue(a.created, other.created, preserveKnown));
      a := a.(updated := KeepOrUpdateValue(a.updated, other.updated, preserveKnown));
      attributes := a;
      if !preserveKnown {
        inbound := otherInbound;
        outbound := otherOutbound;
      }
    }

    /**
     `flattenDevices`. With an error already among the diagnostics, the linodes are replaced even when
     preserving, and everything else is left alone.
     */
    method FlattenDevices(listing: seq<Device>, preserveKnown: bool, hasError: bool)
      modifies this`attributes
      ensures var found := Known(AsSet(EntityIDs(listing, Linode)));
              attributes.linodes == KeepOrUpdateValue(old(attributes.linodes), found, preserveKnown && !hasError)
      ensures hasError ==> attributes == old(attributes).(linodes := attributes.linodes)
      ensures !hasError ==>
                attributes == old(attributes).(
                  linodes := attributes.linodes,
                  nodeBalancers :=
                    KeepOrUpdateValue(old(attributes.nodeBalancers), Known(AsSet(EntityIDs(listing, NodeBalancer))),
                                      preserveKnown),
                  interfaces :=
                    KeepOrUpdateValue(old(attributes.interfaces), Known(AsSet(EntityIDs(listing, LinodeInterface))),
                                      preserveKnown),
                  devices := KeepOrUpdateValue(old(attributes.devices), Known(listing), preserveKnown))
    {
      var ids := AggregateEntityIDs(listing, Linode);
      var keep := preserveKnown && !hasError;
      attributes := attributes.(linodes := KeepOrUpdateValue(attributes.linodes, Known(AsSet(ids)), keep));
      if hasError {
        return;
      }
      ids := AggregateEntityIDs(listing, NodeBalancer);
      attributes := attributes.(
        nodeBalancers := KeepOrUpdateValue(attributes.nodeBalancers, Known(AsSet(ids)), preserveKnown));
      ids := AggregateEntityIDs(listing, LinodeInterface);
      attributes := attributes.(
        interfaces := KeepOrUpdateValue(attributes.interfaces, Known(AsSet(ids)), preserveKnown));
      attributes := attributes.(devices := KeepOrUpdateValue(attributes.devices, Known(listing), preserveKnown));
    }
  }

  // ---------------------------------------------------------------- Update

  /** `getUpdateOptions`: whether the firewall itself must be updated. */
  predicate FirewallChanged(plan: TopLevel, state: TopLevel) {
    plan.title != state.title || plan.tags != state.tags || plan.disabled != state.disabled
  }

  /** `getUpdateOptions` fails on tags that changed to unknown. */
  predicate UpdateOptionsFail(plan: TopLevel, state: TopLevel) {
    plan.tags.Unknown? && plan.tags != state.tags
  }

  /** `expandFirewallStatus`. */
  function StatusFor(disabled: bool): string {
    if disabled then DISABLED else ENABLED
  }

  /** The request for what the plan changes: a null or unknown value asks for the zero value of its Go type. */
  function RequestFor(plan: TopLevel, state: TopLevel): UpdateOptions {
    UpdateOptions(
      if plan.title != state.title then ValueOr(plan.title, "") else "",
      if plan.tags != state.tags && plan.tags.Known? then Some(plan.tags.value) else None,
      if plan.disabled != state.disabled then StatusFor(ValueOr(plan.disabled, false)) else "")
  }

  /** `getUpdateOptions`; None stands for an error diagnostic. */
  method GetUpdateOptions(plan: TopLevel, state: TopLevel) returns (options: Option<UpdateOptions>, shouldUpdate: bool)
    ensures options.None? <==> UpdateOptionsFail(plan, state)
    ensures options.None? <==> plan.tags.Unknown? && !state.tags.Unknown?
    ensures options.Some? ==> options.value == RequestFor(plan, state)
    ensures options.Some? ==> (shouldUpdate <==> FirewallChanged(plan, state))
    ensures options.Some? ==>
              && options.value.title
                 == (if plan.title != state.title && plan.title.Known? then plan.title.value else "")
              && (options.value.tags.Some? ==> plan.tags == Known(options.value.tags.value) != state.tags)
              && (options.value.tags.None? ==> plan.tags == state.tags || plan.tags.Null?)
              && (options.value.status == "disabled" <==> plan.disabled == Known(true) != state.disabled)
              && (options.value.status == "enabled"
                  <==> plan.disabled != state.disabled && plan.disabled != Known(true))
  {
    var updateOpts := UpdateOptions("", None, "");
    shouldUpdate := false;
    if plan.title != state.title {
      updateOpts := updateOpts.(title := ValueOr(plan.title, ""));
      shouldUpdate := true;
    }
    if plan.tags != state.tags {
      if plan.tags.Unknown? {
        return None, shouldUpdate;
      }
      updateOpts := updateOpts.(tags := if plan.tags.Known? then Some(plan.tags.value) else None);
      shouldUpdate := true;
    }
    if plan.disabled != state.disabled {
      updateOpts := updateOpts.(status := StatusFor(ValueOr(plan.disabled, false)));
      shouldUpdate := true;
    }
    options := Some(updateOpts);
  }

  /** `LinodesOrNodeBalancersOrInterfacesHaveChanges`. */
  predicate DeviceSetsChanged(plan: TopLevel, state: TopLevel) {
    plan.linodes != state.linodes || plan.nodeBalancers != state.nodeBalancers || plan.interfaces != state.interfaces
  }

  /** The response merged into the plan, if the firewall was updated. */
  function ResponseFor(
    plan: TopLevel, state: TopLevel, firewallAnswer: UpdateOptions -> Option<ApiFirewall>
  ): TopLevel {
    var answer := firewallAnswer(RequestFor(plan, state));
    if FirewallChanged(plan, state) && answer.Some? then ResponseOf(answer.value) else ALL_UNKNOWN
  }

  /** A server that changes what a request names and keeps the rest. */
  function Obey(held: ApiFirewall, o: UpdateOptions): ApiFirewall {
    held.(title := if o.title == "" then held.title else o.title,
          tags := if o.tags.Some? then o.tags.value else held.tags,
          status := if o.status == "" then held.status else o.status)
  }

  /** The attributes that an update can change are those of the firewall. */
  predicate Describes(a: TopLevel, f: ApiFirewall) {
    && a.title == Known(f.title) && a.tags == Known(f.tags)
    && a.disabled == Known(f.status == DISABLED) && a.status == Known(f.status)
  }

  /** The firewall after an update, on such a server. */
  function ServerAfter(plan: TopLevel, state: TopLevel, held: ApiFirewall): ApiFirewall {
    if FirewallChanged(plan, state) then Obey(held, RequestFor(plan, state)) else held
  }

  /** What the update saves, on such a server. */
  function SavedAfter(plan: TopLevel, state: TopLevel, held: ApiFirewall): TopLevel {
    Merge(Merge(plan, ResponseFor(plan, state, o => Some(Obey(held, o)))), state)
  }

  /** The status that the plan asks for: unchanged, unless `disabled` differs from the state. */
  function PlannedStatus(plan: TopLevel, state: TopLevel, held: ApiFirewall): string {
    if plan.disabled == state.disabled then held.status else StatusFor(ValueOr(plan.disabled, false))
  }

  /**
   An update of a state that described the firewall, on a server that obeys the request, saves what describes
   the firewall again exactly when the plan has no null label, tags or `disabled`, empties no label, and leaves
   the status open or foresees the one that `disabled` asks for.
   */
  lemma SavedDescribesServerIff(plan: TopLevel, state: TopLevel, held: ApiFirewall)
    requires Describes(state, held) && !UpdateOptionsFail(plan, state)
    ensures Describes(SavedAfter(plan, state, held), ServerAfter(plan, state, held))
            <==> && !plan.title.Null? && !plan.tags.Null? && !plan.disabled.Null?
                 && (plan.title == Known("") ==> held.title == "")
                 && (plan.status.Unknown? || plan.status == Known(PlannedStatus(plan, state, held)))
  {
  }

  /**
   A plan that carries the status over from the state, as the schema makes it: the saved status is the
   server's exactly when `disabled` does not change.
   */
  lemma SavedStatusCurrentIff(plan: TopLevel, state: TopLevel, held: ApiFirewall)
    requires Describes(state, held) && !UpdateOptionsFail(plan, state)
    requires held.status == ENABLED || held.status == DISABLED
    requires plan.status == state.status && plan.disabled.Known?
    ensures SavedAfter(plan, state, held).status == Known(ServerAfter(plan, state, held).status)
            <==> plan.disabled == state.disabled
  {
  }

  /** Disabling an enabled firewall: the server disables it, the saved status says enabled. */
  lemma StaleStatusExample(plan: TopLevel, state: TopLevel, held: ApiFirewall)
    requires held.status == ENABLED && Describes(state, held) && !UpdateOptionsFail(plan, state)
    requires plan.disabled == Known(true) && plan.status == state.status
    ensures ServerAfter(plan, state, held).status == DISABLED
    ensures SavedAfter(plan, state, held).status == Known(ENABLED)
  {
  }

  /** `ExpandFwInt64Set`: the elements in some order; a null or unknown set has none. */
  method ExpandFwInt64Set(s: IDSet) returns (ids: seq<GoInt>)
    ensures Distinct(ids) && AsSet(ids) == ValueOr(s, {})
  {
    ids := [];
    var rest := ValueOr(s, {});
    while rest != {}
      invariant rest <= ValueOr(s, {}) && AsSet(ids) == ValueOr(s, {}) - rest && Distinct(ids)
    {
      var x :| x in rest;
      assert x !in AsSet(ids) && AsSet(ids + [x]) == AsSet(ids) + {x};
      ids := ids + [x];
      rest := rest - {x};
    }
  }

  /** The three loops of `Update` that build the assignment list. */
  method BuildAssignments(linodes: seq<GoInt>, nodeBalancers: seq<GoInt>, interfaces: seq<GoInt>)
    returns (assignments: seq<Assignment>)
    ensures assignments == ConfiguredAssignments(linodes, nodeBalancers, interfaces)
  {
    assignments := [];
    for i := 0 to |linodes|
      invariant assignments == WithKind(linodes[..i], Linode)
    {
      assignments := assignments + [Assignment(linodes[i], Linode)];
    }
    assert linodes[..|linodes|] == linodes;
    for i := 0 to |nodeBalancers|
      invariant assignments == WithKind(linodes, Linode) + WithKind(nodeBalancers[..i], NodeBalancer)
    {
      assignments := assignments + [Assignment(nodeBalancers[i], NodeBalancer)];
    }
    assert nodeBalancers[..|nodeBalancers|] == nodeBalancers;
    for i := 0 to |interfaces|
      invariant assignments == WithKind(linodes, Linode) + WithKind(nodeBalancers, NodeBalancer)
                               + WithKind(interfaces[..i], LinodeInterface)
    {
      assignments := assignments + [Assignment(interfaces[i], LinodeInterface)];
    }
    assert interfaces[..|interfaces|] == interfaces;
  }

  /** What one device update did: the ID lists it configured and the run it made, if the listing succeeded. */
  datatype DeviceUpdate = DeviceUpdate(
    linodes: seq<GoInt>, nodeBalancers: seq<GoInt>, interfaces: seq<GoInt>,
    listed: bool, listing: seq<Device>, deletes: seq<GoInt>, run: seq<Step>
  )

  ghost predicate IsDeviceUpdate(plan: TopLevel, before: Remote, u: DeviceUpdate, ok: bool) {
    && Distinct(u.linodes) && AsSet(u.linodes) == ValueOr(plan.linodes, {})
    && Distinct(u.nodeBalancers) && AsSet(u.nodeBalancers) == ValueOr(plan.nodeBalancers, {})
    && Distinct(u.interfaces) && AsSet(u.interfaces) == ValueOr(plan.interfaces, {})
    && (if u.listed then
          IsReconcileRun(before, u.listing, ConfiguredAssignments(u.linodes, u.nodeBalancers, u.interfaces), u.deletes,
                         u.run, ok)
        else !ok && u.run == [])
  }

  /** The device update failed for a reason the API gave. */
  ghost predicate DeviceUpdateFailed(api: DeviceApi, failedBefore: nat, u: DeviceUpdate)
    reads api
  {
    api.failedListings > failedBefore || (u.run != [] && !u.run[|u.run| - 1].ok)
  }

  /** The last branch of `Update`: expands the three sets and reconciles the devices. */
  method UpdateDevices(plan: FirewallResourceModel, api: DeviceApi) returns (ok: bool, ghost u: DeviceUpdate)
    requires api.Valid()
    modifies api
    ensures api.Valid() && api.trace == old(api.trace) + u.run
    ensures IsDeviceUpdate(old(plan.attributes), old(api.devices), u, ok)
    ensures !ok ==> DeviceUpdateFailed(api, old(api.failedListings), u)
    ensures api.devices == StateAfter(old(api.devices), u.run, |u.run|)
  {
    var linodes := ExpandFwInt64Set(plan.attributes.linodes);
    var nodeBalancers := ExpandFwInt64Set(plan.attributes.nodeBalancers);
    var interfaces := ExpandFwInt64Set(plan.attributes.interfaces);
    var assignments := BuildAssignments(linodes, nodeBalancers, interfaces);
    ghost var listed, listing, deletes, run;
    ok, listed, listing, deletes, run := UpdateFirewallDevices(api, assignments);
    u := DeviceUpdate(linodes, nodeBalancers, interfaces, listed, listing, deletes, run);
  }

  /** The rule slices of two models do not overlap, as after decoding plan and state separately. */
  ghost predicate Separate(plan: FirewallResourceModel, state: FirewallResourceModel)
    reads plan, state
  {
    && plan != state
    && (plan.inbound != null ==>
          plan.inbound != plan.outbound && plan.inbound != state.inbound && plan.inbound != state.outbound)
    && (plan.outbound != null ==> plan.outbound != state.inbound && plan.outbound != state.outbound)
  }

  /** No rule of the block has unknown addresses. */
  predicate Expandable(block: RuleBlock) {
    forall i :: 0 <= i < |ValueOr(block, [])| ==> Rules.Expand(ValueOr(block, [])[i]).Some?
  }

  function Expanded(block: RuleBlock): seq<Rules.ApiRule>
    requires Expandable(block)
  {
    var rules := ValueOr(block, []);
    seq(|rules|, i requires 0 <= i < |rules| => Rules.Expand(rules[i]).value)
  }

  /** The rule set that a plan sends. */
  function RuleSetFor(plan: TopLevel, blocks: Blocks): ApiRuleSet
    requires Expandable(blocks.inbound) && Expandable(blocks.outbound)
  {
    ApiRuleSet(Expanded(blocks.inbound), Expanded(blocks.outbound),
               ValueOr(plan.inboundPolicy, ""), ValueOr(plan.outboundPolicy, ""))
  }

  /** What comes of sending the planned rules and policies: nothing unless both blocks expand and the call succeeds. */
  function AnswerToRules(
    plan: TopLevel, blocks: Blocks, rulesAnswer: ApiRuleSet -> Option<ApiRuleSet>
  ): Option<ApiRuleSet> {
    if Expandable(blocks.inbound) && Expandable(blocks.outbound) then rulesAnswer(RuleSetFor(plan, blocks)) else None
  }

  /** `ExpandFirewallRuleSet`; None stands for an error diagnostic. */
  method ExpandFirewallRuleSet(plan: FirewallResourceModel) returns (ruleSet: Option<ApiRuleSet>)
    ensures ruleSet.Some? <==> Expandable(Block(plan.inbound)) && Expandable(Block(plan.outbound))
    ensures ruleSet.Some? ==>
              && Rules.IsExpansion(ValueOr(Block(plan.inbound), []), ruleSet.value.inbound)
              && Rules.IsExpansion(ValueOr(Block(plan.outbound), []), ruleSet.value.outbound)
              && ruleSet.value.inboundPolicy == ValueOr(plan.attributes.inboundPolicy, "")
              && ruleSet.value.outboundPolicy == ValueOr(plan.attributes.outboundPolicy, "")
  {
    var inbound := Rules.ExpandFirewallRules(ValueOr(Block(plan.inbound), []));
    if inbound.None? {
      return None;
    }
    var outbound := Rules.ExpandFirewallRules(ValueOr(Block(plan.outbound), []));
    if outbound.None? {
      return None;
    }
    ruleSet := Some(ApiRuleSet(inbound.value, outbound.value, ValueOr(plan.attributes.inboundPolicy, ""),
                               ValueOr(plan.attributes.outboundPolicy, "")));
  }

  lemma ExpansionUnique(block: RuleBlock, expanded: seq<Rules.ApiRule>)
    requires Expandable(block) && Rules.IsExpansion(ValueOr(block, []), expanded)
    ensures expanded == Expanded(block)
  {
  }

  /** The rules branch of `Update`: sends the planned rules and merges the answer into the plan in place. */
  method UpdateRules(plan: FirewallResourceModel, rulesAnswer: ApiRuleSet -> Option<ApiRuleSet>) returns (ok: bool)
    requires plan.inbound != null ==> plan.inbound != plan.outbound
    modifies plan`inbound, plan`outbound, if plan.inbound == null then {} else {plan.inbound},
             if plan.outbound == null then {} else {plan.outbound}
    ensures ok <==> AnswerToRules(plan.attributes, old(plan.BothBlocks()), rulesAnswer).Some?
    ensures plan.BothBlocks()
            == if ok then
                 MergedBlocks(old(plan.BothBlocks()),
                              AnswerToRules(plan.attributes, old(plan.BothBlocks()), rulesAnswer).value)
               else old(plan.BothBlocks())
    ensures old(plan.inbound) != null ==> plan.inbound == old(plan.inbound)
    ensures old(plan.outbound) != null ==> plan.outbound == old(plan.outbound)
  {
    var ruleSet := ExpandFirewallRuleSet(plan);
    if ruleSet.None? {
      return false;
    }
    ExpansionUnique(Block(plan.inbound), ruleSet.value.inbound);
    ExpansionUnique(Block(plan.outbound), ruleSet.value.outbound);
    var answer := rulesAnswer(ruleSet.value);
    if answer.None? {
      return false;
    }
    var merged := Rules.FlattenFirewallRules(answer.value.inbound, plan.inbound, true);
    var mergedOut := Rules.FlattenFirewallRules(answer.value.outbound, plan.outbound, true);
    plan.inbound := merged;
    plan.outbound := mergedOut;
    ok := true;
  }

  /** `RulesAndPoliciesHaveChanges`, on the plan as it stands when `Update` evaluates it. */
  predicate RulesOrPoliciesChanged(stateBlocks: Blocks, planBlocks: Blocks, state: TopLevel, plan: TopLevel) {
    || stateBlocks != planBlocks
    || state.inboundPolicy != plan.inboundPolicy || state.outboundPolicy != plan.outboundPolicy
  }

  /** Everything that the first two branches of `Update` depend on. */
  datatype UpdateInputs = UpdateInputs(
    plan: TopLevel, planBlocks: Blocks, state: TopLevel, stateBlocks: Blocks,
    firewallAnswer: UpdateOptions -> Option<ApiFirewall>, rulesAnswer: ApiRuleSet -> Option<ApiRuleSet>
  ) {
    /** The plan's attributes once the answer to the firewall update is merged in. */
    function Merged(): TopLevel {
      Merge(plan, ResponseFor(plan, state, firewallAnswer))
    }

    /** Whether the rules are sent: the merged policies or the planned blocks differ from the state. */
    predicate RulesSent() {
      RulesOrPoliciesChanged(stateBlocks, planBlocks, state, Merged())
    }

    /** The plan leaves label, tags and `disabled` as they are. */
    predicate SameFirewall() {
      plan.title == state.title && plan.tags == state.tags && plan.disabled == state.disabled
    }

    /** Blocks and policies, as the plan has them after a firewall update, are those of the state. */
    predicate SameRules() {
      && planBlocks.inbound == stateBlocks.inbound && planBlocks.outbound == stateBlocks.outbound
      && Merged().inboundPolicy == state.inboundPolicy && Merged().outboundPolicy == state.outboundPolicy
    }

    predicate SameSets() {
      plan.linodes == state.linodes && plan.nodeBalancers == state.nodeBalancers && plan.interfaces == state.interfaces
    }

    /** The options are invalid or the firewall update failed. */
    predicate FirewallFails() {
      UpdateOptionsFail(plan, state) || (FirewallChanged(plan, state) && firewallAnswer(RequestFor(plan, state)).None?)
    }

    /** The rules were due but could not be expanded, or the call failed. */
    predicate RulesFail() {
      RulesSent() && AnswerToRules(Merged(), planBlocks, rulesAnswer).None?
    }

    /** The rule blocks once the answer to the rules that were sent is merged in. */
    function BlocksAfter(): Blocks
      requires !RulesFail()
    {
      if RulesSent() then MergedBlocks(planBlocks, AnswerToRules(Merged(), planBlocks, rulesAnswer).value)
      else planBlocks
    }
  }

  predicate EchoableBlock(block: RuleBlock) {
    forall i :: 0 <= i < |ValueOr(block, [])| ==> Rules.Echoable(ValueOr(block, [])[i])
  }

  /** A block merged with an answer that repeats what was sent is what a refresh makes of that answer iff echoable. */
  lemma MergedBlockEchoesIff(block: RuleBlock)
    requires Expandable(block)
    ensures MergedBlock(block, Expanded(block)) == Known(Rules.ModelsOf(Expanded(block))) <==> EchoableBlock(block)
  {
    Rules.NoDriftAfterApplyIff(ValueOr(block, []), Expanded(block));
  }

  /**
   Against an API that stores the rules it is sent, an update that sends rules saves the blocks that a later
   refresh gives exactly when every planned rule is echoable.
   */
  lemma SentBlocksSurviveRefreshIff(inputs: UpdateInputs)
    requires Expandable(inputs.planBlocks.inbound) && Expandable(inputs.planBlocks.outbound)
    requires inputs.RulesSent() && forall sent :: inputs.rulesAnswer(sent) == Some(sent)
    ensures inputs.BlocksAfter() == Blocks(Known(Rules.ModelsOf(Expanded(inputs.planBlocks.inbound))),
                                           Known(Rules.ModelsOf(Expanded(inputs.planBlocks.outbound))))
            <==> EchoableBlock(inputs.planBlocks.inbound) && EchoableBlock(inputs.planBlocks.outbound)
  {
    MergedBlockEchoesIff(inputs.planBlocks.inbound);
    MergedBlockEchoesIff(inputs.planBlocks.outbound);
  }

  /**
   What the plan leaves as it is asks for nothing: the firewall branch then needs no answer and changes
   nothing, nor does the rules branch.
   */
  lemma UnchangedNeedsNoAnswer(inputs: UpdateInputs)
    ensures inputs.SameFirewall() ==> !inputs.FirewallFails() && inputs.Merged() == inputs.plan
    ensures inputs.SameRules() ==> !inputs.RulesFail() && inputs.BlocksAfter() == inputs.planBlocks
  {
    CombineLaws(inputs.plan, inputs.plan);
  }

  /** The blocks and policies are those of a rule set. */
  predicate DescribesRules(a: TopLevel, blocks: Blocks, held: ApiRuleSet) {
    && ValueOr(blocks.inbound, []) == Rules.ModelsOf(held.inbound)
    && ValueOr(blocks.outbound, []) == Rules.ModelsOf(held.outbound)
    && a.inboundPolicy == Known(held.inboundPolicy) && a.outboundPolicy == Known(held.outboundPolicy)
  }

  /** What a server that stores the rules it is sent holds after the update. */
  function RulesAfter(inputs: UpdateInputs, held: ApiRuleSet): ApiRuleSet
    requires Expandable(inputs.planBlocks.inbound) && Expandable(inputs.planBlocks.outbound)
  {
    if inputs.RulesSent() then RuleSetFor(inputs.Merged(), inputs.planBlocks) else held
  }

  /**
   Whether or not the rules were sent: from a state that described the server's rules, the server ends up
   with the planned rules and policies.
   */
  lemma ServerRulesMatchPlan(inputs: UpdateInputs, held: ApiRuleSet)
    requires Expandable(inputs.planBlocks.inbound) && Expandable(inputs.planBlocks.outbound)
    requires DescribesRules(inputs.state, inputs.stateBlocks, held)
    ensures var server := RulesAfter(inputs, held);
            && Rules.IsExpansion(ValueOr(inputs.planBlocks.inbound, []), server.inbound)
            && Rules.IsExpansion(ValueOr(inputs.planBlocks.outbound, []), server.outbound)
            && server.inboundPolicy == ValueOr(inputs.Merged().inboundPolicy, "")
            && server.outboundPolicy == ValueOr(inputs.Merged().outboundPolicy, "")
  {
    Rules.ExpandInvertsFlatten(held.inbound);
    Rules.ExpandInvertsFlatten(held.outbound);
  }

  /**
   The first two branches of `Update`: the firewall itself, then its rules. The plan takes over the answers
   to exactly the requests that the plan calls for; planned rule slices are updated in place.
   */
  method UpdateFirewallAndRules(
    plan: FirewallResourceModel, state: FirewallResourceModel,
    firewallAnswer: UpdateOptions -> Option<ApiFirewall>, rulesAnswer: ApiRuleSet -> Option<ApiRuleSet>,
    ghost inputs: UpdateInputs
  ) returns (ok: bool)
    requires Separate(plan, state)
    requires inputs == UpdateInputs(plan.attributes, plan.BothBlocks(), state.attributes, state.BothBlocks(),
                                    firewallAnswer, rulesAnswer)
    modifies plan, if plan.inbound == null then {} else {plan.inbound},
             if plan.outbound == null then {} else {plan.outbound}
    ensures ok <==> !inputs.FirewallFails() && !inputs.RulesFail()
    ensures ok && (inputs.plan.title != inputs.state.title || inputs.plan.tags != inputs.state.tags
                   || inputs.plan.disabled != inputs.state.disabled) ==>
              firewallAnswer(RequestFor(inputs.plan, inputs.state)).Some?
    ensures ok ==> plan.attributes == inputs.Merged() && plan.BothBlocks() == inputs.BlocksAfter()
    ensures old(plan.inbound) != null ==> plan.inbound == old(plan.inbound)
    ensures old(plan.outbound) != null ==> plan.outbound == old(plan.outbound)
  {
    var planned, prior := plan.attributes, state.attributes;
    var options, shouldUpdate := GetUpdateOptions(planned, prior);
    if options.None? {
      return false;
    }
    if shouldUpdate {
      var firewall := firewallAnswer(options.value);
      if firewall.None? {
        return false;
      }
      plan.FlattenFirewall(firewall.value, true);
      MergeResponseKeepsDevices(planned, firewall.value);
    }
    CombineLaws(planned, planned);
    if RulesOrPoliciesChanged(state.BothBlocks(), plan.BothBlocks(), prior, plan.attributes) {
      ok := UpdateRules(plan, rulesAnswer);
      return;
    }
    ok := true;
  }

  /** The device branch of `Update`, guarded by whether one of the three sets changed. */
  method UpdateChangedDevices(plan: FirewallResourceModel, prior: TopLevel, api: DeviceApi)
    returns (ok: bool, ghost u: DeviceUpdate)
    requires api.Valid()
    modifies api
    ensures api.Valid() && api.trace == old(api.trace) + u.run
    ensures api.devices == StateAfter(old(api.devices), u.run, |u.run|)
    ensures if DeviceSetsChanged(old(plan.attributes), prior) then
              IsDeviceUpdate(old(plan.attributes), old(api.devices), u, ok)
            else ok && u.run == []
    ensures !ok ==> DeviceUpdateFailed(api, old(api.failedListings), u)
  {
    ok, u := true, DeviceUpdate([], [], [], false, [], [], []);
    if DeviceSetsChanged(plan.attributes, prior) {
      ok, u := UpdateDevices(plan, api);
    }
  }

  /** A device update depends on the plan's three ID sets only. */
  lemma SameDeviceUpdate(plan: TopLevel, merged: TopLevel, before: Remote, u: DeviceUpdate, ok: bool)
    requires WithDevicesOf(plan, merged) == plan
    ensures IsDeviceUpdate(merged, before, u, ok) == IsDeviceUpdate(plan, before, u, ok)
  {
  }

  /** Merging with an answer never changes which device sets are planned. */
  lemma DeviceSetsUntouched(plan: TopLevel, state: TopLevel, firewallAnswer: UpdateOptions -> Option<ApiFirewall>)
    ensures var merged := Merge(plan, ResponseFor(plan, state, firewallAnswer));
            WithDevicesOf(plan, merged) == plan
  {
  }

  /** The assignments that the planned sets ask for. */
  ghost function PlannedAssignments(plan: TopLevel): set<Assignment> {
    (set x | x in ValueOr(plan.linodes, {}) :: Assignment(x, Linode))
    + (set x | x in ValueOr(plan.nodeBalancers, {}) :: Assignment(x, NodeBalancer))
    + (set x | x in ValueOr(plan.interfaces, {}) :: Assignment(x, LinodeInterface))
  }

  lemma PlannedAreConfigured(plan: TopLevel, before: Remote, u: DeviceUpdate)
    requires IsDeviceUpdate(plan, before, u, true)
    ensures AsSet(ConfiguredAssignments(u.linodes, u.nodeBalancers, u.interfaces)) == PlannedAssignments(plan)
    ensures Distinct(ConfiguredAssignments(u.linodes, u.nodeBalancers, u.interfaces))
  {
    ConfiguredDistinct(u.linodes, u.nodeBalancers, u.interfaces);
  }

  /** The device part of an update that succeeded. */
  ghost predicate DevicesUpdated(plan: TopLevel, state: TopLevel, before: Remote, u: DeviceUpdate) {
    if DeviceSetsChanged(plan, state) then IsDeviceUpdate(plan, before, u, true) else u.run == []
  }

  /** State holds a current device list, and the plan does not override it. */
  ghost predicate HoldsCurrentDevices(plan: TopLevel, state: TopLevel, before: Remote) {
    && state.devices.Known? && IsListing(state.devices.value, before)
    && (plan.devices.Unknown? || plan.devices == state.devices)
  }

  /**
   `Update` never refreshes the device list: the one it saves is the one that state held, and after the
   update that is current exactly when no ID set was changed or the planned assignments were attached already.
   */
  lemma SavedDevicesCurrentIff(plan: TopLevel, response: TopLevel, state: TopLevel, before: Remote, u: DeviceUpdate)
    requires HoldsCurrentDevices(plan, state, before) && response.devices.Unknown?
    requires DevicesUpdated(plan, state, before, u)
    ensures var saved := Merge(Merge(plan, response), state).devices;
            && saved == state.devices
            && (IsListing(saved.value, StateAfter(before, u.run, |u.run|))
                <==> !DeviceSetsChanged(plan, state) || PlannedAssignments(plan) == Assignments(before))
  {
    if DeviceSetsChanged(plan, state) {
      PlannedAreConfigured(plan, before, u);
      ListingStaysCurrentIff(before, state.devices.value, u.listing,
                             ConfiguredAssignments(u.linodes, u.nodeBalancers, u.interfaces), u.deletes, u.run);
    }
  }

  /** The three sets are what is attached. */
  ghost predicate SetsCurrent(a: TopLevel, remote: Remote) {
    && a.linodes == Known(IDsOfKind(Assignments(remote), Linode))
    && a.nodeBalancers == Known(IDsOfKind(Assignments(remote), NodeBalancer))
    && a.interfaces == Known(IDsOfKind(Assignments(remote), LinodeInterface))
  }

  /** From an up-to-date state and known planned sets: the saved list is current exactly when no set was changed. */
  lemma ChangedSetsLeaveDevicesStale(
    plan: TopLevel, response: TopLevel, state: TopLevel, before: Remote, u: DeviceUpdate
  )
    requires HoldsCurrentDevices(plan, state, before) && response.devices.Unknown?
    requires DevicesUpdated(plan, state, before, u)
    requires SetsCurrent(state, before)
    requires plan.linodes.Known? && plan.nodeBalancers.Known? && plan.interfaces.Known?
    ensures IsListing(Merge(Merge(plan, response), state).devices.value, StateAfter(before, u.run, |u.run|))
            <==> !DeviceSetsChanged(plan, state)
  {
    SavedDevicesCurrentIff(plan, response, state, before, u);
    if PlannedAssignments(plan) == Assignments(before) {
      PlannedByKind(plan);
    }
  }

  lemma PlannedByKind(plan: TopLevel)
    ensures IDsOfKind(PlannedAssignments(plan), Linode) == ValueOr(plan.linodes, {})
    ensures IDsOfKind(PlannedAssignments(plan), NodeBalancer) == ValueOr(plan.nodeBalancers, {})
    ensures IDsOfKind(PlannedAssignments(plan), LinodeInterface) == ValueOr(plan.interfaces, {})
  {
  }

  /** No unplanned linode, node balancer or interface is attached twice. */
  ghost predicate OnlyOtherTypesHidden(before: Remote, plan: TopLevel) {
    forall a :: a in HiddenDuplicates(before, PlannedAssignments(plan)) ==> a.kind.OtherType?
  }

  /** The three sets, a null or unknown one counting as empty, are what is attached. */
  ghost predicate SetsAttached(a: TopLevel, remote: Remote) {
    && IDsOfKind(Assignments(remote), Linode) == ValueOr(a.linodes, {})
    && IDsOfKind(Assignments(remote), NodeBalancer) == ValueOr(a.nodeBalancers, {})
    && IDsOfKind(Assignments(remote), LinodeInterface) == ValueOr(a.interfaces, {})
  }

  /** After a device update the planned sets are attached exactly when nothing of a managed kind was hidden. */
  lemma UpdatedSetsAttachedIff(plan: TopLevel, before: Remote, u: DeviceUpdate)
    requires IsDeviceUpdate(plan, before, u, true)
    ensures SetsAttached(plan, StateAfter(before, u.run, |u.run|)) <==> OnlyOtherTypesHidden(before, plan)
    ensures DistinctAssignments(before) ==> OnlyOtherTypesHidden(before, plan)
  {
    var configured := ConfiguredAssignments(u.linodes, u.nodeBalancers, u.interfaces);
    PlannedAreConfigured(plan, before, u);
    PlannedByKind(plan);
    SuccessfulRunLeaves(before, u.listing, configured, u.deletes, u.run);
    var planned := PlannedAssignments(plan);
    var hidden := HiddenDuplicates(before, planned);
    HiddenAreExtra(planned, hidden, Linode);
    HiddenAreExtra(planned, hidden, NodeBalancer);
    HiddenAreExtra(planned, hidden, LinodeInterface);
    NoneOfManagedKinds(hidden);
  }

  lemma NoneOfManagedKinds(hidden: set<Assignment>)
    ensures IDsOfKind(hidden, Linode) == IDsOfKind(hidden, NodeBalancer) == IDsOfKind(hidden, LinodeInterface) == {}
            <==> forall a :: a in hidden ==> a.kind.OtherType?
  {
    forall a | a in hidden && !a.kind.OtherType? ensures a.id in IDsOfKind(hidden, a.kind) {
    }
  }

  /**
   From an up-to-date state and known planned sets: after a successful update the planned sets are attached
   exactly when none of the three differs from the state, or nothing of a managed kind was hidden by another
   device with the same assignment; in particular whenever the assignments were distinct.
   */
  lemma PlannedSetsAttachedIff(plan: TopLevel, state: TopLevel, before: Remote, u: DeviceUpdate)
    requires DevicesUpdated(plan, state, before, u) && SetsCurrent(state, before)
    requires plan.linodes.Known? && plan.nodeBalancers.Known? && plan.interfaces.Known?
    ensures SetsCurrent(plan, StateAfter(before, u.run, |u.run|))
            <==> || (&& plan.linodes == state.linodes && plan.nodeBalancers == state.nodeBalancers
                     && plan.interfaces == state.interfaces)
                 || OnlyOtherTypesHidden(before, plan)
    ensures DistinctAssignments(before) ==> SetsCurrent(plan, StateAfter(before, u.run, |u.run|))
  {
    if DeviceSetsChanged(plan, state) {
      UpdatedSetsAttachedIff(plan, before, u);
    }
  }

  /** The planned set of one kind; there is none for other types. */
  function SetOfKind(a: TopLevel, kind: EntityType): IDSet {
    match kind
    case Linode => a.linodes
    case NodeBalancer => a.nodeBalancers
    case LinodeInterface => a.interfaces
    case OtherType(_) => Null
  }

  /**
   A kind whose planned set is null or unknown keeps its attached entities exactly when no set differs from
   the state, or all of them were attached twice, in particular when there were none.
   */
  lemma OpenSetKeepsEntitiesIff(plan: TopLevel, state: TopLevel, before: Remote, u: DeviceUpdate, kind: EntityType)
    requires DevicesUpdated(plan, state, before, u) && !SetOfKind(plan, kind).Known?
    ensures IDsOfKind(Assignments(StateAfter(before, u.run, |u.run|)), kind) == IDsOfKind(Assignments(before), kind)
            <==> || !DeviceSetsChanged(plan, state)
                 || forall a :: a in Assignments(before) && a.kind == kind ==>
                      a in HiddenDuplicates(before, PlannedAssignments(plan))
  {
    if DeviceSetsChanged(plan, state) {
      var configured := ConfiguredAssignments(u.linodes, u.nodeBalancers, u.interfaces);
      PlannedAreConfigured(plan, before, u);
      SuccessfulRunLeaves(before, u.listing, configured, u.deletes, u.run);
      NonePlanned(plan, kind);
      var planned := PlannedAssignments(plan);
      KindKeptIff(Assignments(before), planned, HiddenDuplicates(before, planned), kind);
    }
  }

  lemma NonePlanned(plan: TopLevel, kind: EntityType)
    requires !SetOfKind(plan, kind).Known?
    ensures forall a :: a in PlannedAssignments(plan) ==> a.kind != kind
  {
  }

  lemma KindKeptIff(before: set<Assignment>, planned: set<Assignment>, hidden: set<Assignment>, kind: EntityType)
    requires hidden <= before && forall a :: a in planned ==> a.kind != kind
    ensures IDsOfKind(planned + hidden, kind) == IDsOfKind(before, kind)
            <==> forall a :: a in before && a.kind == kind ==> a in hidden
  {
    forall a | a in before && a.kind == kind
      ensures a.id in IDsOfKind(before, kind) && (a.id in IDsOfKind(planned + hidden, kind) <==> a in hidden)
    {
      if a in hidden {
        assert a in planned + hidden;
      }
      assert Assignment(a.id, kind) == a;
    }
  }

  /** The update that detaches the one attached entity. */
  const DETACH := DeviceUpdate([], [], [], true, [], [1], [Step(Delete(1), true, map[])])

  /** State with linode 7 attached as device 1, plan with no linode: the saved list still holds device 1. */
  lemma StaleDevicesExample(plan: TopLevel, state: TopLevel, response: TopLevel)
    requires var none: set<GoInt> := {};
             && state.linodes == Known({7}) && state.nodeBalancers == state.interfaces == Known(none)
             && plan.linodes == plan.nodeBalancers == plan.interfaces == Known(none)
    requires state.devices == Known([Device(1, Assignment(7, Linode))])
    requires plan.devices == state.devices && response.devices.Unknown?
    ensures var before: Remote, u := map[1 := Assignment(7, Linode)], DETACH.(listing := state.devices.value);
            && HoldsCurrentDevices(plan, state, before) && SetsCurrent(state, before)
            && DevicesUpdated(plan, state, before, u)
            && StateAfter(before, u.run, |u.run|) == map[]
            && Merge(Merge(plan, response), state).devices == state.devices
            && !IsListing(state.devices.value, map[])
  {
    var a := Assignment(7, Linode);
    SingleDetach(a);
    SingleAssignment(1, a);
  }

  lemma SingleAssignment(id: GoInt, a: Assignment)
    ensures Assignments(map[id := a]) == {a}
    ensures forall kind :: IDsOfKind({a}, kind) == if a.kind == kind then {a.id} else {}
  {
    var remote: Remote := map[id := a];
    assert remote[id] in Assignments(remote);
  }

  /** The saved device list is the one state held, and is current exactly when nothing had to be reconciled. */
  ghost predicate SavedListRight(plan: TopLevel, state: TopLevel, before: Remote, saved: TopLevel, after: Remote) {
    HoldsCurrentDevices(plan, state, before) ==>
      && saved.devices == state.devices
      && (IsListing(state.devices.value, after)
          <==> !DeviceSetsChanged(plan, state) || PlannedAssignments(plan) == Assignments(before))
  }

  /** From an up-to-date state, known planned sets and distinct assignments, the saved sets are the attached ones. */
  ghost predicate SavedSetsRight(plan: TopLevel, state: TopLevel, before: Remote, saved: TopLevel, after: Remote) {
    SetsCurrent(state, before) && DistinctAssignments(before)
    && plan.linodes.Known? && plan.nodeBalancers.Known? && plan.interfaces.Known? ==>
      && SetsCurrent(saved, after)
      && saved.linodes == plan.linodes && saved.nodeBalancers == plan.nodeBalancers
      && saved.interfaces == plan.interfaces
  }

  lemma SavedDevicesRight(plan: TopLevel, response: TopLevel, state: TopLevel, before: Remote, u: DeviceUpdate)
    requires DevicesUpdated(plan, state, before, u) && response.devices.Unknown?
    ensures var saved, after := Merge(Merge(plan, response), state), StateAfter(before, u.run, |u.run|);
            SavedListRight(plan, state, before, saved, after) && SavedSetsRight(plan, state, before, saved, after)
  {
    if HoldsCurrentDevices(plan, state, before) {
      SavedDevicesCurrentIff(plan, response, state, before, u);
    }
    if SetsCurrent(state, before) && plan.linodes.Known? && plan.nodeBalancers.Known? && plan.interfaces.Known? {
      PlannedSetsAttachedIff(plan, state, before, u);
    }
  }

  /**
   `Update`. On success the plan holds what is saved as the new state: every attribute merged from plan,
   answer and state, the rule blocks merged with the API's answer if they were sent, and the remote devices
   reconciled if one of the three ID sets changed; but the device list is the one state held. On failure the
   device run, if there was one, is a reconciliation run all the same.
   */
  method Update(
    plan: FirewallResourceModel, state: FirewallResourceModel, api: DeviceApi,
    firewallAnswer: UpdateOptions -> Option<ApiFirewall>, rulesAnswer: ApiRuleSet -> Option<ApiRuleSet>,
    ghost inputs: UpdateInputs
  ) returns (ok: bool, ghost u: DeviceUpdate)
    requires api.Valid() && Separate(plan, state)
    requires inputs == UpdateInputs(plan.attributes, plan.BothBlocks(), state.attributes, state.BothBlocks(),
                                    firewallAnswer, rulesAnswer)
    modifies plan, api, if plan.inbound == null then {} else {plan.inbound},
             if plan.outbound == null then {} else {plan.outbound}
    ensures api.Valid() && api.trace == old(api.trace) + u.run
    ensures api.devices == StateAfter(old(api.devices), u.run, |u.run|)
    ensures ok ==>
              && Atoi(ValueOr(state.attributes.id, "")).Some? && !inputs.FirewallFails() && !inputs.RulesFail()
              && plan.attributes == Merge(inputs.Merged(), state.attributes)
              && plan.BothBlocks() == inputs.BlocksAfter()
              && DevicesUpdated(inputs.plan, state.attributes, old(api.devices), u)
    ensures ok && (inputs.plan.title != inputs.state.title || inputs.plan.tags != inputs.state.tags
                   || inputs.plan.disabled != inputs.state.disabled) ==>
              firewallAnswer(RequestFor(inputs.plan, inputs.state)).Some?
    ensures ok ==>
              && SavedListRight(inputs.plan, state.attributes, old(api.devices), plan.attributes, api.devices)
              && SavedSetsRight(inputs.plan, state.attributes, old(api.devices), plan.attributes, api.devices)
    ensures old(plan.inbound) != null ==> plan.inbound == old(plan.inbound)
    ensures old(plan.outbound) != null ==> plan.outbound == old(plan.outbound)
    ensures ok && ((old(plan.inbound) == null) != (state.inbound == null)
                   || (old(plan.outbound) == null) != (state.outbound == null)) ==>
              plan.inbound != null && plan.outbound != null
    ensures !ok ==>
              || Atoi(ValueOr(state.attributes.id, "")).None? || inputs.FirewallFails() || inputs.RulesFail()
              || DeviceUpdateFailed(api, old(api.failedListings), u)
    ensures !ok ==> u.run == [] || IsDeviceUpdate(inputs.plan, old(api.devices), u, false)
    ensures inputs.SameSets() ==> u.run == []
  {
    u := DeviceUpdate([], [], [], false, [], [], []);
    var prior := state.attributes;
    if Atoi(ValueOr(state.attributes.id, "")).None? {
      return false, u;
    }
    ok := UpdateFirewallAndRules(plan, state, firewallAnswer, rulesAnswer, inputs);
    if !ok {
      return;
    }
    DeviceSetsUntouched(inputs.plan, prior, firewallAnswer);
    ok, u := UpdateChangedDevices(plan, prior, api);
    SameDeviceUpdate(inputs.plan, inputs.Merged(), old(api.devices), u, ok);
    if !ok {
      return;
    }
    plan.CopyFrom(prior, state.inbound, state.outbound, true);
    SavedDevicesRight(inputs.plan, ResponseFor(inputs.plan, prior, firewallAnswer), prior, old(api.devices), u);
    ok := true;
  }

  // ---------------------------------------------------------------- Read

  datatype GetFirewallAnswer = Found(firewall: ApiFirewall) | NotFound | GetFailed

  /** Saved(clean): a state was handed back, without (clean) or with an error diagnostic. */
  datatype ReadOutcome = Saved(clean: bool) | Removed | Failed

  /** What a complete refresh finds out about the attributes. */
  ghost function Refreshed(f: ApiFirewall, remote: Remote, listing: seq<Device>): TopLevel {
    ResponseOf(f).(
      linodes := Known(IDsOfKind(Assignments(remote), Linode)),
      nodeBalancers := Known(IDsOfKind(Assignments(remote), NodeBalancer)),
      interfaces := Known(IDsOfKind(Assignments(remote), LinodeInterface)),
      devices := Known(listing))
  }

  /**
   What a read makes of the attributes when the firewall was found. With the rules unread, the error among
   the diagnostics lets only the linodes through; with the devices unread, nothing about devices changes.
   */
  ghost function AttributesAfterRead(
    before: TopLevel, f: ApiFirewall, rulesRead: bool, listed: bool, remote: Remote, listing: seq<Device>
  ): TopLevel {
    if listed && rulesRead then Refreshed(f, remote, listing)
    else
      var answered := WithDevicesOf(ResponseOf(f), before);
      if listed then answered.(linodes := Known(IDsOfKind(Assignments(remote), Linode))) else answered
  }

  /**
   Policies that an update saved and a server stored with the rules are what a later read gives, exactly when
   they were planned, or taken from an empty one in state.
   */
  lemma SavedPoliciesSurviveReadIff(
    inputs: UpdateInputs, held: ApiRuleSet, f: ApiFirewall, rulesRead: bool, listed: bool, remote: Remote,
    listing: seq<Device>
  )
    requires Expandable(inputs.planBlocks.inbound) && Expandable(inputs.planBlocks.outbound)
    requires DescribesRules(inputs.state, inputs.stateBlocks, held)
    requires f.inboundPolicy == RulesAfter(inputs, held).inboundPolicy
    requires f.outboundPolicy == RulesAfter(inputs, held).outboundPolicy
    ensures var saved := Merge(inputs.Merged(), inputs.state);
            var read := AttributesAfterRead(saved, f, rulesRead, listed, remote, listing);
            && (read.inboundPolicy == saved.inboundPolicy
                <==> || inputs.Merged().inboundPolicy.Known?
                     || (inputs.Merged().inboundPolicy.Unknown? && inputs.state.inboundPolicy == Known("")))
            && (read.outboundPolicy == saved.outboundPolicy
                <==> || inputs.Merged().outboundPolicy.Known?
                     || (inputs.Merged().outboundPolicy.Unknown? && inputs.state.outboundPolicy == Known("")))
  {
    ServerRulesMatchPlan(inputs, held);
  }

  /** A read without the rules is as good as a full one exactly when the other device attributes were current. */
  lemma PartialReadCompleteIff(before: TopLevel, f: ApiFirewall, remote: Remote, listing: seq<Device>)
    ensures AttributesAfterRead(before, f, false, true, remote, listing) == Refreshed(f, remote, listing)
            <==> && before.nodeBalancers == Known(IDsOfKind(Assignments(remote), NodeBalancer))
                 && before.interfaces == Known(IDsOfKind(Assignments(remote), LinodeInterface))
                 && before.devices == Known(listing)
  {
  }

  /** A node balancer attached outside Terraform: read with the rules it appears, without them it does not. */
  lemma PartialReadExample(before: TopLevel, f: ApiFirewall)
    requires before.nodeBalancers == Known({})
    ensures var a := Assignment(3, NodeBalancer);
            var remote: Remote, listing := map[1 := a], [Device(1, a)];
            && IsListing(listing, remote)
            && AttributesAfterRead(before, f, true, true, remote, listing).nodeBalancers == Known({3})
            && AttributesAfterRead(before, f, false, true, remote, listing).nodeBalancers == Known({})
            && AttributesAfterRead(before, f, false, true, remote, listing).linodes == Known({})
  {
    SingleDetach(Assignment(3, NodeBalancer));
    SingleAssignment(1, Assignment(3, NodeBalancer));
  }

  /** `refreshRules` when overwriting. */
  method RefreshRules(state: FirewallResourceModel, answer: ApiRuleSet)
    modifies state`inbound, state`outbound
    ensures Block(state.inbound) == Known(Rules.ModelsOf(answer.inbound))
    ensures Block(state.outbound) == Known(Rules.ModelsOf(answer.outbound))
  {
    var inbound := Rules.FlattenFirewallRules(answer.inbound, state.inbound, false);
    var outbound := Rules.FlattenFirewallRules(answer.outbound, state.outbound, false);
    state.inbound := inbound;
    state.outbound := outbound;
  }

  /** `refreshDevices` when overwriting. */
  method RefreshDevices(state: FirewallResourceModel, api: DeviceApi, hasError: bool)
    returns (ok: bool, ghost listing: seq<Device>)
    modifies state`attributes, api`failedListings
    ensures api.failedListings == old(api.failedListings) + (if ok then 0 else 1)
    ensures ok && !hasError ==>
              && IsListing(listing, api.devices)
              && state.attributes == old(state.attributes).(
                   linodes := Known(IDsOfKind(Assignments(api.devices), Linode)),
                   nodeBalancers := Known(IDsOfKind(Assignments(api.devices), NodeBalancer)),
                   interfaces := Known(IDsOfKind(Assignments(api.devices), LinodeInterface)),
                   devices := Known(listing))
    ensures ok && hasError ==>
              && IsListing(listing, api.devices)
              && state.attributes
                 == old(state.attributes).(linodes := Known(IDsOfKind(Assignments(api.devices), Linode)))
    ensures !ok ==> state.attributes == old(state.attributes)
  {
    var current;
    ok, current := api.List();
    listing := current;
    if ok {
      state.FlattenDevices(current, false, hasError);
      EntityIDsOfListing(current, api.devices, Linode);
      EntityIDsOfListing(current, api.devices, NodeBalancer);
      EntityIDsOfListing(current, api.devices, LinodeInterface);
    }
  }

  /**
   `Read`. A clean read makes every attribute and both rule blocks a function of what the API answered,
   whatever the state held before; one that missed the rules or the devices hands back a mixture.
   */
  method Read(
    state: FirewallResourceModel, api: DeviceApi, firewallAnswer: GetFirewallAnswer, rulesAnswer: Option<ApiRuleSet>
  ) returns (outcome: ReadOutcome, ghost listing: seq<Device>)
    modifies state, api`failedListings
    ensures outcome == Failed
            <==> (old(ValueOr(state.attributes.id, "")) != "" &&
                  (Atoi(old(ValueOr(state.attributes.id, ""))).None? || firewallAnswer.GetFailed?))
    ensures outcome == Removed
            <==> (old(ValueOr(state.attributes.id, "")) == "" ||
                  (Atoi(old(ValueOr(state.attributes.id, ""))).Some? && firewallAnswer.NotFound?))
    ensures outcome.Saved? ==>
              var listed := api.failedListings == old(api.failedListings);
              && (outcome.clean <==> rulesAnswer.Some? && listed) && (listed ==> IsListing(listing, api.devices))
              && firewallAnswer.Found?
              && state.attributes == AttributesAfterRead(old(state.attributes), firewallAnswer.firewall,
                                                         rulesAnswer.Some?, listed, api.devices, listing)
    ensures outcome.Saved? ==>
              && firewallAnswer.Found?
              && var a, f := state.attributes, firewallAnswer.firewall;
                 && a.id == Known(Itoa(f.id)) && a.title == Known(f.title) && a.tags == Known(f.tags)
                 && a.disabled == Known(f.status == "disabled") && a.status == Known(f.status)
                 && a.inboundPolicy == Known(f.inboundPolicy) && a.outboundPolicy == Known(f.outboundPolicy)
                 && a.created == (if f.created.Some? then Known(f.created.value) else Null)
                 && a.updated == (if f.updated.Some? then Known(f.updated.value) else Null)
    ensures outcome.Saved? && rulesAnswer.Some? ==>
              && state.inbound != null && state.outbound != null
              && Block(state.inbound) == Known(Rules.ModelsOf(rulesAnswer.value.inbound))
              && Block(state.outbound) == Known(Rules.ModelsOf(rulesAnswer.value.outbound))
    ensures !outcome.Saved? ==> state.attributes == old(state.attributes)
    ensures !outcome.Saved? || rulesAnswer.None? ==>
              state.inbound == old(state.inbound) && state.outbound == old(state.outbound)
  {
    listing := [];
    if ValueOr(state.attributes.id, "") == "" {
      return Removed, listing;
    }
    if Atoi(ValueOr(state.attributes.id, "")).None? || firewallAnswer.GetFailed? {
      return Failed, listing;
    }
    if firewallAnswer.NotFound? {
      return Removed, listing;
    }
    CombineLaws(state.attributes, ResponseOf(firewallAnswer.firewall));
    state.FlattenFirewall(firewallAnswer.firewall, false);
    if rulesAnswer.Some? {
      RefreshRules(state, rulesAnswer.value);
    }
    var listed;
    listed, listing := RefreshDevices(state, api, rulesAnswer.None?);
    outcome := Saved(listed && rulesAnswer.Some?);
  }

  // ---------------------------------------------------------------- apply, then refresh


  /**
   An ID set saved by an update and not refreshed afterwards is the refreshed one exactly when it was planned,
   or left open by the plan while state held the empty set.
   */
  predicate SetSurvivesRefresh(planned: IDSet, held: IDSet) {
    planned.Known? || (planned.Unknown? && held == Known({}))
  }

  /** The three sets are the planned ones. */
  predicate SetsAsPlanned(a: TopLevel, plan: TopLevel) {
    && a.linodes == Known(ValueOr(plan.linodes, {}))
    && a.nodeBalancers == Known(ValueOr(plan.nodeBalancers, {}))
    && a.interfaces == Known(ValueOr(plan.interfaces, {}))
  }

  lemma RefreshAfterUpdate(
    plan: TopLevel, state: TopLevel, saved: TopLevel, read: TopLevel, before: Remote, u: DeviceUpdate
  )
    requires IsDeviceUpdate(plan, before, u, true) && SetsCurrent(read, StateAfter(before, u.run, |u.run|))
    requires && saved.linodes == KeepOrUpdateValue(plan.linodes, state.linodes, true)
             && saved.nodeBalancers == KeepOrUpdateValue(plan.nodeBalancers, state.nodeBalancers, true)
             && saved.interfaces == KeepOrUpdateValue(plan.interfaces, state.interfaces, true)
    ensures SetsAsPlanned(read, plan) <==> OnlyOtherTypesHidden(before, plan)
    ensures OnlyOtherTypesHidden(before, plan) ==>
              && (saved.linodes == read.linodes <==> SetSurvivesRefresh(plan.linodes, state.linodes))
              && (saved.nodeBalancers == read.nodeBalancers
                  <==> SetSurvivesRefresh(plan.nodeBalancers, state.nodeBalancers))
              && (saved.interfaces == read.interfaces <==> SetSurvivesRefresh(plan.interfaces, state.interfaces))
  {
    UpdatedSetsAttachedIff(plan, before, u);
  }

  /** An update with changed sets: what it saves, and the devices it leaves. */
  method Apply(
    plan: FirewallResourceModel, state: FirewallResourceModel, api: DeviceApi,
    firewallAnswer: UpdateOptions -> Option<ApiFirewall>, rulesAnswer: ApiRuleSet -> Option<ApiRuleSet>
  ) returns (ok: bool, ghost u: DeviceUpdate)
    requires api.Valid() && Separate(plan, state)
    requires DeviceSetsChanged(plan.attributes, state.attributes)
    modifies plan, api, if plan.inbound == null then {} else {plan.inbound},
             if plan.outbound == null then {} else {plan.outbound}
    ensures ok ==>
              && IsDeviceUpdate(old(plan.attributes), old(api.devices), u, true)
              && api.devices == StateAfter(old(api.devices), u.run, |u.run|)
              && plan.attributes == Merge(Merge(old(plan.attributes),
                                                ResponseFor(old(plan.attributes), state.attributes, firewallAnswer)),
                                          state.attributes)
  {
    ghost var inputs := UpdateInputs(plan.attributes, plan.BothBlocks(), state.attributes, state.BothBlocks(),
                                     firewallAnswer, rulesAnswer);
    ok, u := Update(plan, state, api, firewallAnswer, rulesAnswer, inputs);
  }

  /** A read, as far as the three sets are concerned. */
  method Refresh(
    state: FirewallResourceModel, api: DeviceApi, firewallAnswer: GetFirewallAnswer, rulesAnswer: Option<ApiRuleSet>
  ) returns (outcome: ReadOutcome)
    modifies state, api`failedListings
    ensures outcome == Saved(true) ==> SetsCurrent(state.attributes, api.devices)
  {
    ghost var listing;
    outcome, listing := Read(state, api, firewallAnswer, rulesAnswer);
  }

  /**
   Applying a plan whose ID sets differ from the state, and then reading the saved state back, gives the
   planned sets (an unknown or null one counting as empty) exactly when no linode, node balancer or
   interface outside the plan was attached twice; in particular if no two devices attached the same entity.
   Then the read changes a saved set exactly when it was not planned and not held as the empty set.
   */
  method ApplyThenRefresh(
    plan: FirewallResourceModel, state: FirewallResourceModel, api: DeviceApi,
    firewallAnswer: UpdateOptions -> Option<ApiFirewall>, rulesAnswer: ApiRuleSet -> Option<ApiRuleSet>,
    readAnswer: GetFirewallAnswer, readRules: Option<ApiRuleSet>
  ) returns (applied: bool, outcome: ReadOutcome, ghost saved: TopLevel)
    requires api.Valid() && Separate(plan, state)
    requires DeviceSetsChanged(plan.attributes, state.attributes)
    modifies plan, api, if plan.inbound == null then {} else {plan.inbound},
             if plan.outbound == null then {} else {plan.outbound}
    ensures applied ==>
              saved == Merge(Merge(old(plan.attributes),
                                   ResponseFor(old(plan.attributes), state.attributes, firewallAnswer)),
                             state.attributes)
    ensures applied && outcome == Saved(true) ==>
              (SetsAsPlanned(plan.attributes, old(plan.attributes))
               <==> OnlyOtherTypesHidden(old(api.devices), old(plan.attributes)))
    ensures applied && outcome == Saved(true) && OnlyOtherTypesHidden(old(api.devices), old(plan.attributes)) ==>
              && (saved.linodes == plan.attributes.linodes
                  <==> SetSurvivesRefresh(old(plan.attributes.linodes), state.attributes.linodes))
              && (saved.nodeBalancers == plan.attributes.nodeBalancers
                  <==> SetSurvivesRefresh(old(plan.attributes.nodeBalancers), state.attributes.nodeBalancers))
              && (saved.interfaces == plan.attributes.interfaces
                  <==> SetSurvivesRefresh(old(plan.attributes.interfaces), state.attributes.interfaces))
    ensures DistinctAssignments(old(api.devices)) ==> OnlyOtherTypesHidden(old(api.devices), old(plan.attributes))
  {
    ghost var planned, start := plan.attributes, api.devices;
    ghost var u;
    outcome, saved := Failed, planned;
    applied, u := Apply(plan, state, api, firewallAnswer, rulesAnswer);
    if !applied {
      return;
    }
    saved := plan.attributes;
    outcome := Refresh(plan, api, readAnswer, readRules);
    if outcome == Saved(true) {
      RefreshAfterUpdate(planned, state.attributes, saved, plan.attributes, start, u);
    }
  }

  /**
   The interfaces are null in state and not known in the plan, interface 9 is attached, and the plan drops
   linode 7: the update detaches the interface as well and saves null, where a refresh finds the empty set.
   */
  lemma NullSetDetachesExample(plan: TopLevel, state: TopLevel, response: TopLevel, f: ApiFirewall)
    requires var none: set<GoInt> := {};
             && state.linodes == Known({7}) && plan.linodes == Known(none)
             && state.nodeBalancers == plan.nodeBalancers == Known(none)
    requires state.interfaces.Null? && !plan.interfaces.Known? && response.interfaces.Unknown?
    ensures var linode, iface := Assignment(7, Linode), Assignment(9, LinodeInterface);
            var before: Remote, middle: Remote := map[1 := linode, 2 := iface], map[2 := iface];
            var u := DeviceUpdate([], [], [], true, [Device(1, linode), Device(2, iface)], [1, 2],
                                  [Step(Delete(1), true, middle), Step(Delete(2), true, map[])]);
            && DeviceSetsChanged(plan, state) && DevicesUpdated(plan, state, before, u)
            && StateAfter(before, u.run, |u.run|) == map[]
            && Merge(Merge(plan, response), state).interfaces.Null?
            && Refreshed(f, map[], []).interfaces == Known({})
  {
    TwoDetached(Assignment(7, Linode), Assignment(9, LinodeInterface));
    assert IDsOfKind(Assignments(map[]), LinodeInterface) == {};
  }
}
