/**
 The `linode_firewall_settings` resource (`linode/firewallsettings/framework_models.go`): what an update
 sends, and how the answer is merged back.
 */
module FirewallSettings {
  import opened Wrappers
  import opened Attributes

  /** Go's DefaultFirewallIDsAttributeModel. */
  datatype DefaultIDs = DefaultIDs(
    linode: Attr<GoInt>, nodeBalancer: Attr<GoInt>, publicInterface: Attr<GoInt>, vpcInterface: Attr<GoInt>
  )

  const ZERO_IDS := DefaultIDs(Null, Null, Null, Null)

  /** A field of an update: left out, or sent as a value or an explicit null (a pointer to a pointer in Go). */
  type Sent = Option<Option<GoInt>>

  datatype Options = Options(linode: Sent, nodeBalancer: Sent, publicInterface: Sent, vpcInterface: Sent)

  /** The settings the API holds; None is a setting that is null. */
  datatype Settings = Settings(
    linode: Option<GoInt>, nodeBalancer: Option<GoInt>, publicInterface: Option<GoInt>, vpcInterface: Option<GoInt>
  )

  /** `ValueInt64Pointer`: nil for null. */
  function Pointer(a: Attr<GoInt>): Option<GoInt> {
    if a.Known? then Some(a.value) else None
  }

  /** What a field of the plan requires to be sent; an unknown field requires nothing. */
  predicate SentAsPlanned(planned: Attr<GoInt>, sent: Sent) {
    planned.Unknown? || sent == Some(Pointer(planned))
  }

  predicate AllSentAsPlanned(plan: DefaultIDs, o: Options) {
    && SentAsPlanned(plan.linode, o.linode) && SentAsPlanned(plan.nodeBalancer, o.nodeBalancer)
    && SentAsPlanned(plan.publicInterface, o.publicInterface) && SentAsPlanned(plan.vpcInterface, o.vpcInterface)
  }

  predicate UnknownLeftOut(plan: DefaultIDs, o: Options) {
    && (plan.linode.Unknown? ==> o.linode.None?) && (plan.nodeBalancer.Unknown? ==> o.nodeBalancer.None?)
    && (plan.publicInterface.Unknown? ==> o.publicInterface.None?)
    && (plan.vpcInterface.Unknown? ==> o.vpcInterface.None?)
  }

  const NOTHING := Options(None, None, None, None)

  /** A server that changes exactly the fields sent. */
  function Receive(held: Option<GoInt>, sent: Sent): Option<GoInt> {
    if sent.Some? then sent.value else held
  }

  function Apply(s: Settings, o: Options): Settings {
    Settings(Receive(s.linode, o.linode), Receive(s.nodeBalancer, o.nodeBalancer),
             Receive(s.publicInterface, o.publicInterface), Receive(s.vpcInterface, o.vpcInterface))
  }

  class FirewallSettingsModel {
    var defaultFirewallIDs: Attr<DefaultIDs>

    constructor (ids: Attr<DefaultIDs>)
      ensures defaultFirewallIDs == ids
    {
      defaultFirewallIDs := ids;
    }

    /**
     `GetUpdateOptions`: fails unless the object is known; otherwise sends exactly the fields that are not
     unknown, each with its value or an explicit null, and nothing at all when every field is unknown.
     */
    method GetUpdateOptions() returns (r: Result<Option<Options>, ()>)
      ensures r.Ok? <==> defaultFirewallIDs.Known?
      ensures r.Ok? ==>
                var sent := if r.value.Some? then r.value.value else NOTHING;
                && AllSentAsPlanned(defaultFirewallIDs.value, sent)
                && UnknownLeftOut(defaultFirewallIDs.value, sent)
                && (r.value.None? <==> sent == NOTHING)
    {
      if !defaultFirewallIDs.Known? {
        return Err(());
      }
      var model := defaultFirewallIDs.value;
      var ids := NOTHING;
      var shouldUpdate := false;
      if !model.linode.Unknown? {
        ids := ids.(linode := Some(Pointer(model.linode)));
        shouldUpdate := true;
      }
      if !model.nodeBalancer.Unknown? {
        ids := ids.(nodeBalancer := Some(Pointer(model.nodeBalancer)));
        shouldUpdate := true;
      }
      if !model.publicInterface.Unknown? {
        ids := ids.(publicInterface := Some(Pointer(model.publicInterface)));
        shouldUpdate := true;
      }
      if !model.vpcInterface.Unknown? {
        ids := ids.(vpcInterface := Some(Pointer(model.vpcInterface)));
        shouldUpdate := true;
      }
      return Ok(if shouldUpdate then Some(ids) else None);
    }

    /** `FlattenFirewallSettings`. */
    method FlattenFirewallSettings(settings: Settings, preserveKnown: bool)
      modifies this
      ensures defaultFirewallIDs == Flatten(old(defaultFirewallIDs), settings, preserveKnown)
      ensures !preserveKnown || old(defaultFirewallIDs).Unknown? ==>
                defaultFirewallIDs == Known(DefaultIDs(FromPointer(settings.linode), FromPointer(settings.nodeBalancer),
                                                       FromPointer(settings.publicInterface),
                                                       FromPointer(settings.vpcInterface)))
    {
      defaultFirewallIDs := Flatten(defaultFirewallIDs, settings, preserveKnown);
    }

    /**
     `updateFirewallSettings` against such a server; None is a failed call. The server received every planned
     field and no unknown one, and the saved object is what an overwriting refresh of its answer gives.
     */
    method UpdateFirewallSettings(held: Settings, callFails: bool) returns (answer: Option<Settings>)
      modifies this
      ensures answer.Some? <==> old(defaultFirewallIDs).Known? && !callFails
      ensures answer.None? ==> defaultFirewallIDs == old(defaultFirewallIDs)
      ensures answer.Some? ==>
                exists sent :: && AllSentAsPlanned(old(defaultFirewallIDs).value, sent)
                               && UnknownLeftOut(old(defaultFirewallIDs).value, sent)
                               && answer.value == Apply(held, sent)
      ensures answer.Some? ==> defaultFirewallIDs == Flatten(old(defaultFirewallIDs), answer.value, false)
    {
      var opts := GetUpdateOptions();
      if opts.Err? || callFails {
        return None;
      }
      var sent := if opts.value.Some? then opts.value.value else NOTHING;
      AgreesOnceSent(defaultFirewallIDs.value, sent, held);
      answer := Some(Apply(held, sent));
      FlattenFirewallSettings(answer.value, true);
    }
  }

  /** `FlattenDefaultFirewallIDs`. */
  function FlattenDefaultFirewallIDs(ids: DefaultIDs, s: Settings, preserveKnown: bool): DefaultIDs {
    DefaultIDs(
      KeepOrUpdateValue(ids.linode, FromPointer(s.linode), preserveKnown),
      KeepOrUpdateValue(ids.nodeBalancer, FromPointer(s.nodeBalancer), preserveKnown),
      KeepOrUpdateValue(ids.publicInterface, FromPointer(s.publicInterface), preserveKnown),
      KeepOrUpdateValue(ids.vpcInterface, FromPointer(s.vpcInterface), preserveKnown))
  }

  function Flatten(ids: Attr<DefaultIDs>, s: Settings, preserveKnown: bool): Attr<DefaultIDs> {
    KeepOrUpdateSingleNestedAttributesWithTypes(
      ids, ZERO_IDS, preserveKnown, (model, keep) => (FlattenDefaultFirewallIDs(model, s, keep), false))
  }

  /** Once every field that is not unknown was sent as planned, both ways of merging the answer agree. */
  lemma AgreesOnceSent(plan: DefaultIDs, o: Options, held: Settings)
    requires AllSentAsPlanned(plan, o)
    ensures Flatten(Known(plan), Apply(held, o), true) == Flatten(Known(plan), Apply(held, o), false)
  {
  }

  /**
   The preserving merge of the answer agrees with the overwriting one, whatever the server held before,
   exactly when the update sent every field that is not unknown as planned.
   */
  lemma AgreementIffAllSent(plan: DefaultIDs, o: Options)
    ensures (forall held :: Flatten(Known(plan), Apply(held, o), true) == Flatten(Known(plan), Apply(held, o), false))
            <==> AllSentAsPlanned(plan, o)
  {
    if forall held :: Flatten(Known(plan), Apply(held, o), true) == Flatten(Known(plan), Apply(held, o), false) {
      var none := Settings(None, None, None, None);
      var some := Settings(Some(0), Some(0), Some(0), Some(0));
      assert Flatten(Known(plan), Apply(none, o), true) == Flatten(Known(plan), Apply(none, o), false);
      assert Flatten(Known(plan), Apply(some, o), true) == Flatten(Known(plan), Apply(some, o), false);
      assert AllSentAsPlanned(plan, o);
    }
    if AllSentAsPlanned(plan, o) {
      forall held ensures Flatten(Known(plan), Apply(held, o), true) == Flatten(Known(plan), Apply(held, o), false) {
        AgreesOnceSent(plan, o, held);
      }
    }
  }
}
