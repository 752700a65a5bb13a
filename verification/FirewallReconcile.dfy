/**
 The reconciliation as the provider runs it (`fwUpdateFirewallDevices` in `linode/firewall/helpers.go`),
 against a device API whose calls may fail at any time.
 */
module FirewallReconcile {
  import opened Wrappers
  import opened FirewallDevices

  lemma ListingOneMore(listing: seq<Device>, remote: Remote, id: GoInt, a: Assignment)
    requires IsListing(listing, remote) && id !in remote
    ensures IsListing(listing + [Device(id, a)], remote[id := a])
  {
    var more := listing + [Device(id, a)];
    assert more[|listing|].id == id;
    forall d | d in remote ensures exists i :: 0 <= i < |more| && more[i].id == d {
      var i :| 0 <= i < |listing| && listing[i].id == d;
      assert more[i].id == d;
    }
  }

  /** The device endpoints of one firewall. `trace` records every create and delete call in order. */
  class DeviceApi {
    var devices: Remote
    var nextId: GoInt
    ghost var trace: seq<Step>
    ghost var failedListings: nat

    ghost predicate Valid()
      reads this
    {
      forall id: GoInt :: id in devices ==> id < nextId
    }

    constructor ()
      ensures Valid() && devices == map[] && trace == []
    {
      devices, nextId, trace, failedListings := map[], 0, [], 0;
    }

    /** `ListFirewallDevices`. */
    method List() returns (ok: bool, listing: seq<Device>)
      modifies this`failedListings
      ensures ok ==> IsListing(listing, devices)
      ensures failedListings == old(failedListings) + (if ok then 0 else 1)
    {
      listing := [];
      if * {
        failedListings := failedListings + 1;
        return false, [];
      }
      var rest := devices.Keys;
      ghost var listed: Remote := map[];
      while rest != {}
        invariant IsListing(listing, listed) && listed.Keys !! rest && listed.Keys + rest == devices.Keys
        invariant failedListings == old(failedListings) && forall id :: id in listed ==> listed[id] == devices[id]
      {
        var id: GoInt :| id in rest;
        ListingOneMore(listing, listed, id, devices[id]);
        listing := listing + [Device(id, devices[id])];
        listed := listed[id := devices[id]];
        rest := rest - {id};
      }
      assert listed == devices;
      ok := true;
    }

    /** `CreateFirewallDevice`: may fail, and may have taken effect all the same. */
    method CreateDevice(a: Assignment) returns (ok: bool)
      requires Valid()
      modifies this`devices, this`nextId, this`trace
      ensures Valid()
      ensures Allowed(old(devices), Step(Create(a), ok, devices))
      ensures trace == old(trace) + [Step(Create(a), ok, devices)]
    {
      ok := *;
      var takesEffect: bool := *;
      if nextId == 0x7FFF_FFFF_FFFF_FFFF {
        ok, takesEffect := false, false;
      }
      if ok || takesEffect {
        assert nextId !in devices;
        devices := devices[nextId := a];
        assert TakesEffect(old(devices), Create(a), devices);
        nextId := nextId + 1;
      }
      trace := trace + [Step(Create(a), ok, devices)];
    }

    /** `DeleteFirewallDevice`: may fail, and may have taken effect all the same. */
    method DeleteDevice(id: GoInt) returns (ok: bool)
      requires Valid()
      modifies this`devices, this`nextId, this`trace
      ensures Valid()
      ensures Allowed(old(devices), Step(Delete(id), ok, devices))
      ensures trace == old(trace) + [Step(Delete(id), ok, devices)]
    {
      ok := *;
      var takesEffect: bool := *;
      if ok || takesEffect {
        devices := devices - {id};
      }
      trace := trace + [Step(Delete(id), ok, devices)];
    }
  }

  /** The keys of a Go map in the arbitrary order of one iteration. */
  method MapKeys(m: map<Assignment, GoInt>) returns (keys: seq<Assignment>)
    ensures Distinct(keys) && AsSet(keys) == m.Keys
  {
    keys := [];
    var rest := m.Keys;
    while rest != {}
      invariant rest <= m.Keys && AsSet(keys) == m.Keys - rest && Distinct(keys)
    {
      var k :| k in rest;
      assert k !in AsSet(keys);
      assert AsSet(keys + [k]) == AsSet(keys) + {k};
      keys := keys + [k];
      rest := rest - {k};
    }
  }

  lemma SomeOrder(s: set<Assignment>) returns (keys: seq<Assignment>)
    ensures Distinct(keys) && AsSet(keys) == s
  {
    keys := [];
    if s != {} {
      var a :| a in s;
      var others := SomeOrder(s - {a});
      assert a !in AsSet(others);
      keys := [a] + others;
      assert AsSet(keys) == {a} + AsSet(others);
    }
  }

  lemma ExecutesOneMore(start: Remote, run: seq<Step>, step: Step)
    requires Executes(start, run) && Allowed(StateAfter(start, run, |run|), step)
    ensures Executes(start, run + [step])
  {
    var more := run + [step];
    forall k | 0 <= k < |more| ensures Allowed(StateAfter(start, more, k), more[k]) {
      assert StateAfter(start, more, k) == StateAfter(start, run, k);
      if k < |run| {
        assert Allowed(StateAfter(start, run, k), run[k]);
      }
    }
  }

  /** Deleting the unclaimed devices in the order of the keys is a delete order. */
  lemma KeysGiveDeleteOrder(
    devices: seq<Device>, remote: Remote, configured: seq<Assignment>, m: map<Assignment, GoInt>, keys: seq<Assignment>
  ) returns (deletes: seq<GoInt>)
    requires IsListing(devices, remote) && m == DeviceMap(devices) - AsSet(configured)
    requires Distinct(keys) && AsSet(keys) == m.Keys
    ensures |deletes| == |keys| && forall i :: 0 <= i < |keys| ==> keys[i] in m && deletes[i] == m[keys[i]]
    ensures IsDeleteOrder(deletes, DeviceMap(devices), configured)
  {
    DeviceMapReflectsRemote(devices, remote);
    var all := DeviceMap(devices);
    assert forall a, b :: a in all && b in all && all[a] == all[b] ==> a == b by {
      assert forall a :: a in all ==> remote[all[a]] == a;
    }
    deletes := ValuesInOrder(all, configured, m, keys);
  }

  lemma ValuesInOrder(
    all: map<Assignment, GoInt>, configured: seq<Assignment>, m: map<Assignment, GoInt>, keys: seq<Assignment>
  ) returns (deletes: seq<GoInt>)
    requires forall a, b :: a in all && b in all && all[a] == all[b] ==> a == b
    requires m == all - AsSet(configured) && Distinct(keys) && AsSet(keys) == m.Keys
    ensures |deletes| == |keys| && forall i :: 0 <= i < |keys| ==> keys[i] in m && deletes[i] == m[keys[i]]
    ensures IsDeleteOrder(deletes, all, configured)
  {
    assert forall i :: 0 <= i < |keys| ==> keys[i] in AsSet(keys);
    deletes := seq(|keys|, i requires 0 <= i < |keys| => m[keys[i]]);
    forall id ensures id in AsSet(deletes) <==> id in ToDelete(all, configured) {
      if id in ToDelete(all, configured) {
        var a :| a in all && a !in configured && all[a] == id;
        assert a in m && a in AsSet(keys);
        var i :| 0 <= i < |keys| && keys[i] == a;
        assert deletes[i] == id;
      }
    }
  }

  /** The run so far made the first calls of the plan and all of them succeeded. */
  ghost predicate OnPlan(start: Remote, creates: seq<Assignment>, deletes: seq<GoInt>, run: seq<Step>) {
    Executes(start, run) && FollowsPlan(creates, deletes, run) && forall k :: 0 <= k < |run| ==> run[k].ok
  }

  lemma OnPlanOneMore(start: Remote, creates: seq<Assignment>, deletes: seq<GoInt>, run: seq<Step>, step: Step)
    requires OnPlan(start, creates, deletes, run) && Allowed(StateAfter(start, run, |run|), step)
    requires |run| < |creates| + |deletes| && step.call == PlannedCall(creates, deletes, |run|)
    ensures Executes(start, run + [step]) && FollowsPlan(creates, deletes, run + [step])
    ensures step.ok ==> OnPlan(start, creates, deletes, run + [step])
    ensures StateAfter(start, run + [step], |run| + 1) == step.after
  {
    ExecutesOneMore(start, run, step);
  }

  /** The creation loop: claims the configured devices from the map and creates the missing ones. */
  method CreateMissing(api: DeviceApi, m: map<Assignment, GoInt>, configured: seq<Assignment>)
    returns (ok: bool, unclaimed: map<Assignment, GoInt>, ghost run: seq<Step>)
    requires api.Valid()
    modifies api`devices, api`nextId, api`trace
    ensures api.Valid() && api.trace == old(api.trace) + run
    ensures api.devices == StateAfter(old(api.devices), run, |run|)
    ensures ok ==> unclaimed == m - AsSet(configured) && |run| == |ToCreate(m, configured)|
    ensures ok ==> OnPlan(old(api.devices), ToCreate(m, configured), [], run)
    ensures !ok ==> run != [] && !run[|run| - 1].ok && (forall k :: 0 <= k < |run| - 1 ==> run[k].ok)
    ensures Executes(old(api.devices), run) && FollowsPlan(ToCreate(m, configured), [], run)
  {
    ghost var start := api.devices;
    ghost var creates := ToCreate(m, configured);
    unclaimed, run := m, [];
    for i := 0 to |configured|
      invariant api.Valid() && api.trace == old(api.trace) + run && api.devices == StateAfter(start, run, |run|)
      invariant unclaimed == m - AsSet(configured[..i])
      invariant |run| <= |creates| && creates[|run|..] == ToCreate(unclaimed, configured[i..])
      invariant OnPlan(start, creates, [], run)
    {
      assert configured[..i + 1] == configured[..i] + [configured[i]];
      assert configured[i..][1..] == configured[i + 1..];
      assert AsSet(configured[..i + 1]) == AsSet(configured[..i]) + {configured[i]};
      if configured[i] in unclaimed {
        unclaimed := unclaimed - {configured[i]};
      } else {
        ok := api.CreateDevice(configured[i]);
        ghost var step := Step(Create(configured[i]), ok, api.devices);
        assert creates[|run|..][0] == configured[i] && creates[|run|..][1..] == creates[|run| + 1..];
        OnPlanOneMore(start, creates, [], run, step);
        run := run + [step];
        if !ok {
          return;
        }
      }
    }
    assert configured[..|configured|] == configured;
    ok := true;
  }

  /** The clean-up loop over the devices nobody claimed, in the given map order. */
  method DeleteUnclaimed(
    api: DeviceApi, m: map<Assignment, GoInt>, keys: seq<Assignment>,
    ghost start: Remote, ghost creates: seq<Assignment>, ghost deletes: seq<GoInt>, ghost made: seq<Step>
  ) returns (ok: bool, ghost run: seq<Step>)
    requires api.Valid() && api.devices == StateAfter(start, made, |made|)
    requires |deletes| == |keys| && forall i :: 0 <= i < |keys| ==> keys[i] in m && deletes[i] == m[keys[i]]
    requires |made| == |creates| && OnPlan(start, creates, deletes, made)
    modifies api`devices, api`nextId, api`trace
    ensures api.Valid() && made <= run && api.trace == old(api.trace) + run[|made|..]
    ensures api.devices == StateAfter(start, run, |run|)
    ensures ok ==> |run| == |creates| + |deletes| && OnPlan(start, creates, deletes, run)
    ensures !ok ==> run != [] && !run[|run| - 1].ok && (forall k :: 0 <= k < |run| - 1 ==> run[k].ok)
    ensures Executes(start, run) && FollowsPlan(creates, deletes, run)
  {
    run := made;
    for i := 0 to |keys|
      invariant api.Valid() && made <= run && api.trace == old(api.trace) + run[|made|..]
      invariant api.devices == StateAfter(start, run, |run|)
      invariant |run| == |creates| + i && OnPlan(start, creates, deletes, run)
    {
      ok := api.DeleteDevice(m[keys[i]]);
      ghost var step := Step(Delete(deletes[i]), ok, api.devices);
      OnPlanOneMore(start, creates, deletes, run, step);
      assert (run + [step])[|made|..] == run[|made|..] + [step];
      run := run + [step];
      if !ok {
        return;
      }
    }
    ok := true;
  }

  /** The map built from the listed devices, the last of several equal assignments winning. */
  method BuildDeviceMap(devices: seq<Device>) returns (m: map<Assignment, GoInt>)
    ensures m == DeviceMap(devices)
  {
    m := map[];
    for i := 0 to |devices|
      invariant m == DeviceMap(devices[..i])
    {
      assert devices[..i + 1][..i] == devices[..i];
      m := m[devices[i].entity := devices[i].id];
    }
    assert devices[..|devices|] == devices;
  }

  /** Whatever order the deletions would have had, a run stopped by a failed creation is a failed run. */
  lemma CreationFailed(start: Remote, devices: seq<Device>, configured: seq<Assignment>, run: seq<Step>)
    returns (deletes: seq<GoInt>)
    requires IsListing(devices, start) && Executes(start, run)
    requires FollowsPlan(ToCreate(DeviceMap(devices), configured), [], run)
    requires run != [] && !run[|run| - 1].ok && forall k :: 0 <= k < |run| - 1 ==> run[k].ok
    ensures IsReconcileRun(start, devices, configured, deletes, run, false)
  {
    var m := DeviceMap(devices);
    var order := SomeOrder((m - AsSet(configured)).Keys);
    deletes := KeysGiveDeleteOrder(devices, start, configured, m - AsSet(configured), order);
    MorePlanned(ToCreate(m, configured), deletes, run);
  }

  /** After all creations, deleting the unclaimed devices key by key continues the plan. */
  lemma ReadyToDelete(
    start: Remote, devices: seq<Device>, configured: seq<Assignment>, unclaimed: map<Assignment, GoInt>,
    keys: seq<Assignment>, made: seq<Step>
  ) returns (deletes: seq<GoInt>)
    requires IsListing(devices, start) && unclaimed == DeviceMap(devices) - AsSet(configured)
    requires Distinct(keys) && AsSet(keys) == unclaimed.Keys
    requires OnPlan(start, ToCreate(DeviceMap(devices), configured), [], made)
    ensures |deletes| == |keys|
    ensures forall i :: 0 <= i < |keys| ==> keys[i] in unclaimed && deletes[i] == unclaimed[keys[i]]
    ensures IsDeleteOrder(deletes, DeviceMap(devices), configured)
    ensures OnPlan(start, ToCreate(DeviceMap(devices), configured), deletes, made)
  {
    deletes := KeysGiveDeleteOrder(devices, start, configured, unclaimed, keys);
    MorePlanned(ToCreate(DeviceMap(devices), configured), deletes, made);
  }

  /** After all creations: the clean-up, which completes the run. */
  method CleanUp(
    api: DeviceApi, unclaimed: map<Assignment, GoInt>, ghost start: Remote, ghost devices: seq<Device>,
    ghost configured: seq<Assignment>, ghost made: seq<Step>
  ) returns (ok: bool, ghost deletes: seq<GoInt>, ghost run: seq<Step>)
    requires api.Valid() && api.devices == StateAfter(start, made, |made|)
    requires IsListing(devices, start) && unclaimed == DeviceMap(devices) - AsSet(configured)
    requires |made| == |ToCreate(DeviceMap(devices), configured)|
    requires OnPlan(start, ToCreate(DeviceMap(devices), configured), [], made)
    modifies api`devices, api`nextId, api`trace
    ensures api.Valid() && made <= run && api.trace == old(api.trace) + run[|made|..]
    ensures api.devices == StateAfter(start, run, |run|)
    ensures IsReconcileRun(start, devices, configured, deletes, run, ok)
  {
    var keys := MapKeys(unclaimed);
    deletes := ReadyToDelete(start, devices, configured, unclaimed, keys, made);
    ok, run := DeleteUnclaimed(api, unclaimed, keys, start, ToCreate(DeviceMap(devices), configured), deletes, made);
  }

  /**
   `fwUpdateFirewallDevices`: either the initial listing failed and nothing was called, or the calls made
   form a reconciliation run from the remote devices at entry, successful exactly when `ok`.
   */
  method UpdateFirewallDevices(api: DeviceApi, configured: seq<Assignment>)
    returns (ok: bool, ghost listed: bool, ghost devices: seq<Device>, ghost deletes: seq<GoInt>, ghost run: seq<Step>)
    requires api.Valid()
    modifies api
    ensures api.Valid() && api.trace == old(api.trace) + run
    ensures api.devices == StateAfter(old(api.devices), run, |run|)
    ensures !listed ==> !ok && run == []
    ensures api.failedListings == old(api.failedListings) + (if listed then 0 else 1)
    ensures listed ==> IsReconcileRun(old(api.devices), devices, configured, deletes, run, ok)
  {
    ghost var start := api.devices;
    var current;
    listed, devices, deletes, run := false, [], [], [];
    ok, current := api.List();
    if !ok {
      return;
    }
    listed, devices := true, current;
    var deviceMap := BuildDeviceMap(current);
    var unclaimed;
    ok, unclaimed, run := CreateMissing(api, deviceMap, configured);
    if !ok {
      deletes := CreationFailed(start, devices, configured, run);
      return;
    }
    ghost var made := run;
    ok, deletes, run := CleanUp(api, unclaimed, start, devices, configured, made);
    assert made + run[|made|..] == run;
  }

  lemma MorePlanned(creates: seq<Assignment>, deletes: seq<GoInt>, run: seq<Step>)
    requires FollowsPlan(creates, [], run)
    ensures FollowsPlan(creates, deletes, run)
  {
  }

  /** `AggregateEntityIDs`. */
  method AggregateEntityIDs(devices: seq<Device>, kind: EntityType) returns (ids: seq<GoInt>)
    ensures ids == EntityIDs(devices, kind)
  {
    ids := [];
    for i := 0 to |devices|
      invariant ids == EntityIDs(devices[..i], kind)
    {
      assert devices[..i + 1][..i] == devices[..i];
      if devices[i].entity.kind == kind {
        ids := ids + [devices[i].entity.id];
      }
    }
    assert devices[..|devices|] == devices;
  }
}
