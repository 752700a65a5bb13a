/**
 Reconciliation of the devices attached to a firewall (`linode/firewall/helpers.go`) and the code that
 reads them back (`linode/firewall/framework_models.go`).

 The remote side is a map from device ID to assignment. Every API call is one step that may fail, and a
 failing call may or may not have taken effect; the theorems are about every run the API allows.
 */
module FirewallDevices {
  import opened Wrappers

  datatype EntityType = Linode | NodeBalancer | LinodeInterface | OtherType(name: string)

  /** `firewallDeviceAssignment`: which entity the firewall is attached to. */
  datatype Assignment = Assignment(id: GoInt, kind: EntityType)

  datatype Device = Device(id: GoInt, entity: Assignment)

  /** The devices the API holds for one firewall, by device ID. */
  type Remote = map<GoInt, Assignment>

  datatype Call = Create(assignment: Assignment) | Delete(deviceId: GoInt)

  /** One API call, whether it succeeded, and the remote devices afterwards. */
  datatype Step = Step(call: Call, ok: bool, after: Remote)

  // ---------------------------------------------------------------- what the API may do

  /** The effect of a call that takes place: creation uses an ID that no current device has. */
  ghost predicate TakesEffect(before: Remote, call: Call, after: Remote) {
    match call
    case Create(a) => exists id: GoInt :: id !in before && after == before[id := a]
    case Delete(id) => after == before - {id}
  }

  ghost predicate Allowed(before: Remote, step: Step) {
    TakesEffect(before, step.call, step.after) || (!step.ok && step.after == before)
  }

  /** The remote devices after the first k steps. */
  function StateAfter(start: Remote, run: seq<Step>, k: nat): Remote
    requires k <= |run|
  {
    if k == 0 then start else run[k - 1].after
  }

  ghost predicate Executes(start: Remote, run: seq<Step>) {
    forall k {:trigger StateAfter(start, run, k)} :: 0 <= k < |run| ==> Allowed(StateAfter(start, run, k), run[k])
  }

  /** The answer of `ListFirewallDevices`: every remote device once, in any order. */
  ghost predicate IsListing(devices: seq<Device>, remote: Remote) {
    && (forall i, j :: 0 <= i < j < |devices| ==> devices[i].id != devices[j].id)
    && (forall i :: 0 <= i < |devices| ==> devices[i].id in remote && remote[devices[i].id] == devices[i].entity)
    && (forall id :: id in remote ==> exists i :: 0 <= i < |devices| && devices[i].id == id)
  }

  function Assignments(remote: Remote): set<Assignment> {
    set id | id in remote :: remote[id]
  }

  ghost predicate Distinct<T>(s: seq<T>) {
    forall i, j :: 0 <= i < j < |s| ==> s[i] != s[j]
  }

  /** No two devices attach the same entity. */
  ghost predicate DistinctAssignments(remote: Remote) {
    forall d, e :: d in remote && e in remote && d != e ==> remote[d] != remote[e]
  }

  function AsSet<T>(s: seq<T>): set<T> {
    set x | x in s
  }

  lemma EmptyAsSet<T>(s: seq<T>)
    ensures AsSet(s) == {} <==> s == []
  {
    if s != [] {
      assert s[0] in AsSet(s);
    }
  }

  // ---------------------------------------------------------------- what the provider asks for

  /** The map from assignment to device ID; a later device replaces an earlier one. */
  function DeviceMap(devices: seq<Device>): map<Assignment, GoInt> {
    if devices == [] then map[]
    else DeviceMap(devices[..|devices| - 1])[devices[|devices| - 1].entity := devices[|devices| - 1].id]
  }

  /** Assignments to create, in configured order, when m holds the devices not yet claimed. */
  function ToCreate(m: map<Assignment, GoInt>, configured: seq<Assignment>): seq<Assignment> {
    if configured == [] then []
    else if configured[0] in m then ToCreate(m - {configured[0]}, configured[1..])
    else [configured[0]] + ToCreate(m, configured[1..])
  }

  /** Device IDs to delete: those of devices that no configured assignment claimed. */
  function ToDelete(m: map<Assignment, GoInt>, configured: seq<Assignment>): set<GoInt> {
    set a | a in m && a !in configured :: m[a]
  }

  /** The k-th call of a run: first the creations, then the deletions. */
  function PlannedCall(creates: seq<Assignment>, deletes: seq<GoInt>, k: nat): Call
    requires k < |creates| + |deletes|
  {
    if k < |creates| then Create(creates[k]) else Delete(deletes[k - |creates|])
  }

  /** deletes lists the unclaimed devices, each once, in the (arbitrary) order of a map iteration. */
  ghost predicate IsDeleteOrder(deletes: seq<GoInt>, m: map<Assignment, GoInt>, configured: seq<Assignment>) {
    Distinct(deletes) && AsSet(deletes) == ToDelete(m, configured)
  }

  /**
   A run of the reconciliation: it issues the planned calls in order, stops at the first failing call,
   and reports success exactly when it issued them all and all succeeded.
   */
  ghost predicate IsReconcileRun(
    start: Remote, devices: seq<Device>, configured: seq<Assignment>, deletes: seq<GoInt>, run: seq<Step>, ok: bool
  ) {
    var m := DeviceMap(devices);
    var creates := ToCreate(m, configured);
    && IsListing(devices, start)
    && IsDeleteOrder(deletes, m, configured)
    && Executes(start, run)
    && FollowsPlan(creates, deletes, run)
    && (forall k :: 0 <= k < |run| - 1 ==> run[k].ok)
    && (if ok then |run| == |creates| + |deletes| else run != [])
    && (run != [] ==> run[|run| - 1].ok == ok)
  }

  ghost predicate FollowsPlan(creates: seq<Assignment>, deletes: seq<GoInt>, run: seq<Step>) {
    && |run| <= |creates| + |deletes|
    && forall k :: 0 <= k < |run| ==> run[k].call == PlannedCall(creates, deletes, k)
  }

  // ---------------------------------------------------------------- facts about the plan

  /** The device map has one remote device per assignment. */
  lemma {:induction false} DeviceMapHolds(devices: seq<Device>)
    ensures forall a :: a in DeviceMap(devices) <==> exists i :: 0 <= i < |devices| && devices[i].entity == a
    ensures forall a :: a in DeviceMap(devices) ==> Device(DeviceMap(devices)[a], a) in devices
  {
    if devices != [] {
      var init, last := devices[..|devices| - 1], devices[|devices| - 1];
      DeviceMapHolds(init);
      assert devices == init + [last];
      forall a ensures a in DeviceMap(devices) <==> exists i :: 0 <= i < |devices| && devices[i].entity == a {
        if a in DeviceMap(init) {
          var i :| 0 <= i < |init| && init[i].entity == a;
          assert devices[i].entity == a;
        }
        if a == last.entity {
          assert devices[|devices| - 1].entity == a;
        }
      }
    }
  }

  /** The map's keys are the remote assignments, and each value is a remote device with that assignment. */
  lemma DeviceMapReflectsRemote(devices: seq<Device>, remote: Remote)
    requires IsListing(devices, remote)
    ensures DeviceMap(devices).Keys == Assignments(remote)
    ensures forall a :: a in DeviceMap(devices) ==>
              DeviceMap(devices)[a] in remote && remote[DeviceMap(devices)[a]] == a
  {
    DeviceMapHolds(devices);
    forall a ensures a in DeviceMap(devices) <==> a in Assignments(remote) {
      if a in Assignments(remote) {
        var id :| id in remote && remote[id] == a;
        var i :| 0 <= i < |devices| && devices[i].id == id;
        assert devices[i].entity == a;
      }
    }
  }

  /** Only configured assignments are created, all the missing ones among them. */
  lemma {:induction false} ToCreateCovers(m: map<Assignment, GoInt>, configured: seq<Assignment>)
    ensures forall a :: a in ToCreate(m, configured) ==> a in configured
    ensures forall a :: a in configured && a !in m ==> a in ToCreate(m, configured)
  {
    if configured != [] {
      var rest := if configured[0] in m then m - {configured[0]} else m;
      ToCreateCovers(rest, configured[1..]);
    }
  }

  /** With distinct configured assignments exactly the missing ones are created, each once, in order. */
  lemma {:induction false} ToCreateDistinct(m: map<Assignment, GoInt>, configured: seq<Assignment>)
    requires Distinct(configured)
    ensures Distinct(ToCreate(m, configured))
    ensures AsSet(ToCreate(m, configured)) == AsSet(configured) - m.Keys
  {
    if configured != [] {
      var head, tail := configured[0], configured[1..];
      assert configured == [head] + tail && head !in tail;
      var rest := if head in m then m - {head} else m;
      ToCreateDistinct(rest, tail);
      ToCreateCovers(rest, tail);
      assert AsSet(configured) == {head} + AsSet(tail);
      var made := ToCreate(m, configured);
      if head !in m {
        assert made == [head] + ToCreate(m, tail);
        assert AsSet(made) == {head} + AsSet(ToCreate(m, tail));
      }
      assert AsSet(tail) - rest.Keys == AsSet(tail) - m.Keys;
    }
  }

  /** Nothing needs creating exactly when the configured assignments are distinct and all present. */
  lemma {:induction false} NothingToCreateIff(m: map<Assignment, GoInt>, configured: seq<Assignment>)
    ensures ToCreate(m, configured) == [] <==> Distinct(configured) && AsSet(configured) <= m.Keys
  {
    if configured != [] {
      var head, tail := configured[0], configured[1..];
      assert configured == [head] + tail;
      assert AsSet(configured) == {head} + AsSet(tail);
      if head in m {
        NothingToCreateIff(m - {head}, tail);
        if ToCreate(m, configured) == [] {
          assert head !in AsSet(tail);
        }
        if Distinct(configured) {
          assert head !in tail;
          assert Distinct(tail);
        }
      }
    }
  }

  // ---------------------------------------------------------------- progress of a run

  /**
   Where a run stands: of the devices it started with, exactly the removed ones are gone, and the devices
   it added attach exactly the created assignments.
   */
  ghost predicate Progress(start: Remote, now: Remote, created: set<Assignment>, removed: set<GoInt>) {
    && (forall id :: id in start ==> (id in now <==> id !in removed))
    && (forall id :: id in start && id in now ==> now[id] == start[id])
    && (set id | id in now && id !in start :: now[id]) == created
  }

  lemma CreateAdvances(start: Remote, before: Remote, a: Assignment, after: Remote, created: set<Assignment>)
    requires Progress(start, before, created, {}) && TakesEffect(before, Create(a), after)
    ensures Progress(start, after, created + {a}, {})
  {
  }

  lemma DeleteAdvances(
    start: Remote, before: Remote, id: GoInt, after: Remote, created: set<Assignment>, removed: set<GoInt>
  )
    requires Progress(start, before, created, removed) && id in start && TakesEffect(before, Delete(id), after)
    ensures Progress(start, after, created, removed + {id})
  {
  }

  function CreatedBy(creates: seq<Assignment>, k: nat): set<Assignment> {
    AsSet(if k <= |creates| then creates[..k] else creates)
  }

  function RemovedBy(creates: seq<Assignment>, deletes: seq<GoInt>, k: nat): set<GoInt>
    requires k <= |creates| + |deletes|
  {
    if k <= |creates| then {} else AsSet(deletes[..k - |creates|])
  }

  /** A call that takes effect advances the progress by one planned call. */
  lemma PlannedCallAdvances(
    start: Remote, creates: seq<Assignment>, deletes: seq<GoInt>, k: nat, before: Remote, after: Remote
  )
    requires k < |creates| + |deletes| && AsSet(deletes) <= start.Keys
    requires Progress(start, before, CreatedBy(creates, k), RemovedBy(creates, deletes, k))
    requires TakesEffect(before, PlannedCall(creates, deletes, k), after)
    ensures Progress(start, after, CreatedBy(creates, k + 1), RemovedBy(creates, deletes, k + 1))
  {
    if k < |creates| {
      CreateAdvances(start, before, creates[k], after, CreatedBy(creates, k));
      assert creates[..k + 1] == creates[..k] + [creates[k]];
      assert CreatedBy(creates, k + 1) == CreatedBy(creates, k) + {creates[k]};
    } else {
      var d := k - |creates|;
      assert deletes[d] in AsSet(deletes);
      DeleteAdvances(start, before, deletes[d], after, CreatedBy(creates, k), RemovedBy(creates, deletes, k));
      assert deletes[..d + 1] == deletes[..d] + [deletes[d]];
      assert CreatedBy(creates, k + 1) == CreatedBy(creates, k) by {
        assert creates[..|creates|] == creates;
      }
      assert RemovedBy(creates, deletes, k + 1) == RemovedBy(creates, deletes, k) + {deletes[d]};
    }
  }

  lemma NothingDoneYet(start: Remote, creates: seq<Assignment>, deletes: seq<GoInt>)
    ensures Progress(start, start, CreatedBy(creates, 0), RemovedBy(creates, deletes, 0))
  {
  }

  /** As long as every call so far succeeded, the state is determined up to the choice of new device IDs. */
  lemma {:induction false} RunProgress(
    start: Remote, creates: seq<Assignment>, deletes: seq<GoInt>, run: seq<Step>, k: nat
  )
    requires AsSet(deletes) <= start.Keys
    requires Executes(start, run) && FollowsPlan(creates, deletes, run)
    requires k <= |run| && forall j :: 0 <= j < k ==> run[j].ok
    ensures k <= |creates| + |deletes|
    ensures Progress(start, StateAfter(start, run, k), CreatedBy(creates, k), RemovedBy(creates, deletes, k))
  {
    if k == 0 {
      NothingDoneYet(start, creates, deletes);
    } else {
      RunProgress(start, creates, deletes, run, k - 1);
      var before := StateAfter(start, run, k - 1);
      assert Allowed(before, run[k - 1]);
      PlannedCallAdvances(start, creates, deletes, k - 1, before, run[k - 1].after);
    }
  }

  /** The same at any point of any run: the last call may have failed, with or without taking effect. */
  lemma AnyRunProgress(
    start: Remote, devices: seq<Device>, configured: seq<Assignment>, deletes: seq<GoInt>, run: seq<Step>, ok: bool,
    k: nat
  ) returns (done: nat)
    requires IsReconcileRun(start, devices, configured, deletes, run, ok) && k <= |run|
    ensures done <= k && (done == k || (done == k - 1 && k == |run| && !run[k - 1].ok))
    ensures AsSet(deletes) <= start.Keys
    ensures var creates := ToCreate(DeviceMap(devices), configured);
            && done <= |creates| + |deletes|
            && Progress(start, StateAfter(start, run, k), CreatedBy(creates, done), RemovedBy(creates, deletes, done))
  {
    var creates := ToCreate(DeviceMap(devices), configured);
    DeviceMapReflectsRemote(devices, start);
    done := k;
    if k > 0 && !run[k - 1].ok {
      RunProgress(start, creates, deletes, run, k - 1);
      var before := StateAfter(start, run, k - 1);
      assert Allowed(before, run[k - 1]);
      if TakesEffect(before, run[k - 1].call, run[k - 1].after) {
        PlannedCallAdvances(start, creates, deletes, k - 1, before, run[k - 1].after);
      } else {
        done := k - 1;
      }
    } else {
      RunProgress(start, creates, deletes, run, k);
    }
  }

  // ---------------------------------------------------------------- safety at every step

  /** A device that is configured is not among the deleted ones. */
  lemma ConfiguredNotDeleted(start: Remote, devices: seq<Device>, configured: seq<Assignment>, id: GoInt)
    requires IsListing(devices, start) && id in start && start[id] in configured
    ensures id !in ToDelete(DeviceMap(devices), configured)
  {
    DeviceMapReflectsRemote(devices, start);
  }

  /** Once every creation took effect, every configured assignment is attached. */
  lemma AllConfiguredAttached(
    start: Remote, devices: seq<Device>, configured: seq<Assignment>, now: Remote, removed: set<GoInt>
  )
    requires IsListing(devices, start) && removed <= ToDelete(DeviceMap(devices), configured)
    requires Progress(start, now, AsSet(ToCreate(DeviceMap(devices), configured)), removed)
    ensures AsSet(configured) <= Assignments(now)
  {
    var m := DeviceMap(devices);
    DeviceMapReflectsRemote(devices, start);
    ToCreateCovers(m, configured);
    forall a | a in configured ensures a in Assignments(now) {
      if a in m {
        assert start[m[a]] == a;
        ConfiguredNotDeleted(start, devices, configured, m[a]);
        assert now[m[a]] == a;
      } else {
        assert a in AsSet(ToCreate(m, configured));
        var id :| id in now && id !in start && now[id] == a;
      }
    }
  }

  /**
   Make before break, for every run, failure point and delete order. A device that was present and is
   configured keeps its device ID at every point; only devices that are not configured are ever asked to
   be deleted; and when a delete is issued, every configured assignment is attached, and stays so.
   */
  lemma MakeBeforeBreak(
    start: Remote, devices: seq<Device>, configured: seq<Assignment>, deletes: seq<GoInt>, run: seq<Step>, ok: bool,
    k: nat
  )
    requires IsReconcileRun(start, devices, configured, deletes, run, ok) && k <= |run|
    ensures forall id :: id in start && start[id] in configured ==>
              id in StateAfter(start, run, k) && StateAfter(start, run, k)[id] == start[id]
    ensures k < |run| && run[k].call.Delete? ==>
              run[k].call.deviceId in start && start[run[k].call.deviceId] !in configured
    ensures (exists j :: 0 <= j < |run| && j <= k && run[j].call.Delete?) ==>
              AsSet(configured) <= Assignments(StateAfter(start, run, k))
  {
    var creates := ToCreate(DeviceMap(devices), configured);
    var done := AnyRunProgress(start, devices, configured, deletes, run, ok, k);
    assert RemovedBy(creates, deletes, done) <= AsSet(deletes);
    forall id | id in start && start[id] in configured ensures id !in AsSet(deletes) {
      ConfiguredNotDeleted(start, devices, configured, id);
    }
    if k < |run| && run[k].call.Delete? {
      assert run[k].call == PlannedCall(creates, deletes, k);
      assert run[k].call.deviceId in AsSet(deletes);
    }
    if exists j :: 0 <= j < |run| && j <= k && run[j].call.Delete? {
      var j :| 0 <= j < |run| && j <= k && run[j].call.Delete?;
      assert run[j].call == PlannedCall(creates, deletes, j);
      assert creates[..|creates|] == creates;
      assert CreatedBy(creates, done) == AsSet(creates);
      AllConfiguredAttached(start, devices, configured, StateAfter(start, run, k), RemovedBy(creates, deletes, done));
    }
  }

  // ---------------------------------------------------------------- convergence

  /** Assignments that are not configured but attached more than once; the device map hides all but one. */
  ghost function HiddenDuplicates(start: Remote, configured: set<Assignment>): set<Assignment> {
    set d, e | d in start && e in start && d != e && start[d] == start[e] && start[d] !in configured :: start[d]
  }

  /** A successful run made every creation and every deletion. */
  lemma SuccessfulRunProgress(
    start: Remote, devices: seq<Device>, configured: seq<Assignment>, deletes: seq<GoInt>, run: seq<Step>
  )
    requires IsReconcileRun(start, devices, configured, deletes, run, true)
    ensures AsSet(deletes) <= start.Keys
    ensures Progress(start, StateAfter(start, run, |run|),
                     AsSet(ToCreate(DeviceMap(devices), configured)), AsSet(deletes))
  {
    var creates := ToCreate(DeviceMap(devices), configured);
    DeviceMapReflectsRemote(devices, start);
    RunProgress(start, creates, deletes, run, |run|);
    assert creates[..|creates|] == creates && deletes[..|deletes|] == deletes;
  }

  /** A successful run leaves the configured assignments, plus every hidden duplicate. */
  lemma SuccessfulRunLeaves(
    start: Remote, devices: seq<Device>, configured: seq<Assignment>, deletes: seq<GoInt>, run: seq<Step>
  )
    requires IsReconcileRun(start, devices, configured, deletes, run, true)
    ensures Assignments(StateAfter(start, run, |run|)) == AsSet(configured) + HiddenDuplicates(start, AsSet(configured))
  {
    var m := DeviceMap(devices);
    var creates := ToCreate(m, configured);
    var end := StateAfter(start, run, |run|);
    DeviceMapReflectsRemote(devices, start);
    ToCreateCovers(m, configured);
    SuccessfulRunProgress(start, devices, configured, deletes, run);
    AllConfiguredAttached(start, devices, configured, end, AsSet(deletes));
    forall d | d in end && d !in start ensures end[d] in configured {
      assert end[d] in (set id | id in end && id !in start :: end[id]);
      assert end[d] in AsSet(creates);
    }
    forall a ensures a in Assignments(end) <==> a in AsSet(configured) + HiddenDuplicates(start, AsSet(configured)) {
      if a in Assignments(end) && a !in configured {
        var d :| d in end && end[d] == a;
        assert d in start;
        assert m[a] in ToDelete(m, configured);
        assert d != m[a] && start[m[a]] == a;
        assert a in HiddenDuplicates(start, AsSet(configured));
      }
      if a in HiddenDuplicates(start, AsSet(configured)) {
        SurvivingDuplicate(start, devices, configured, a, end);
      }
    }
  }

  lemma SurvivingDuplicate(start: Remote, devices: seq<Device>, configured: seq<Assignment>, a: Assignment, end: Remote)
    requires IsListing(devices, start) && a in HiddenDuplicates(start, AsSet(configured))
    requires forall id :: id in start ==> (id in end <==> id !in ToDelete(DeviceMap(devices), configured))
    requires forall id :: id in start && id in end ==> end[id] == start[id]
    ensures a in Assignments(end)
  {
    var m := DeviceMap(devices);
    DeviceMapReflectsRemote(devices, start);
    var d, e :| d in start && e in start && d != e && start[d] == start[e] == a && a !in configured;
    var kept := if d == m[a] then e else d;
    assert kept !in ToDelete(m, configured);
    assert kept in end && end[kept] == a;
  }

  /**
   Success means the remote assignments are the configured ones exactly when no unconfigured assignment
   was attached twice at the start; in particular whenever the remote assignments were distinct.
   */
  lemma ConvergesIffNoHiddenDuplicate(
    start: Remote, devices: seq<Device>, configured: seq<Assignment>, deletes: seq<GoInt>, run: seq<Step>
  )
    requires IsReconcileRun(start, devices, configured, deletes, run, true)
    ensures Assignments(StateAfter(start, run, |run|)) == AsSet(configured)
            <==> HiddenDuplicates(start, AsSet(configured)) == {}
    ensures DistinctAssignments(start) ==> HiddenDuplicates(start, AsSet(configured)) == {}
  {
    SuccessfulRunLeaves(start, devices, configured, deletes, run);
    var hidden := HiddenDuplicates(start, AsSet(configured));
    assert hidden !! AsSet(configured);
  }

  /** Two devices with one assignment: reconciling to the empty configuration leaves one of them. */
  lemma HiddenDuplicateExample()
    ensures var start: Remote := map[1 := Assignment(7, Linode), 2 := Assignment(7, Linode)];
            var devices := [Device(1, Assignment(7, Linode)), Device(2, Assignment(7, Linode))];
            var run := [Step(Delete(2), true, map[1 := Assignment(7, Linode)])];
            IsReconcileRun(start, devices, [], [2], run, true) && Assignments(StateAfter(start, run, 1)) != {}
  {
    var a := Assignment(7, Linode);
    var start: Remote := map[1 := a, 2 := a];
    var devices := [Device(1, a), Device(2, a)];
    var end: Remote := map[1 := a];
    var run := [Step(Delete(2), true, end)];
    assert devices[..1] == [Device(1, a)];
    assert DeviceMap(devices[..1]) == map[a := 1];
    var m := DeviceMap(devices);
    assert m == map[a := 2];
    assert devices[0].id == 1 && devices[1].id == 2;
    assert m[a] in ToDelete(m, []);
    assert AsSet([2]) == ToDelete(m, []);
    assert start - {2} == end;
    assert StateAfter(start, run, 0) == start;
    assert end[1] in Assignments(end);
  }

  /** For distinct remote and configured assignments: the created and deleted ones are the two differences. */
  lemma ExactReconciliation(
    start: Remote, devices: seq<Device>, configured: seq<Assignment>, deletes: seq<GoInt>, run: seq<Step>
  )
    requires IsReconcileRun(start, devices, configured, deletes, run, true)
    requires DistinctAssignments(start) && Distinct(configured)
    ensures var creates := ToCreate(DeviceMap(devices), configured);
            && |run| == |creates| + |deletes|
            && (forall k :: 0 <= k < |run| ==> run[k].call == PlannedCall(creates, deletes, k))
            && Distinct(creates) && AsSet(creates) == AsSet(configured) - Assignments(start)
            && Distinct(deletes) && AsSet(deletes) == (set id | id in start && start[id] !in configured)
    ensures Assignments(StateAfter(start, run, |run|)) == AsSet(configured)
  {
    var m := DeviceMap(devices);
    DeviceMapReflectsRemote(devices, start);
    ToCreateDistinct(m, configured);
    ConvergesIffNoHiddenDuplicate(start, devices, configured, deletes, run);
    forall id ensures id in ToDelete(m, configured) <==> id in start && start[id] !in configured {
      if id in start && start[id] !in configured {
        assert start[id] in Assignments(start);
        assert start[m[start[id]]] == start[id];
        assert m[start[id]] == id;
      }
    }
  }

  /** A run has nothing to do exactly when the configuration is duplicate-free and already in place. */
  lemma NoCallsIff(devices: seq<Device>, remote: Remote, configured: seq<Assignment>)
    requires IsListing(devices, remote)
    ensures ToCreate(DeviceMap(devices), configured) == [] && ToDelete(DeviceMap(devices), configured) == {}
            <==> Distinct(configured) && AsSet(configured) == Assignments(remote)
  {
    var m := DeviceMap(devices);
    DeviceMapReflectsRemote(devices, remote);
    NothingToCreateIff(m, configured);
    forall a | a in m && a !in configured ensures m[a] in ToDelete(m, configured) {
    }
  }

  /**
   After a successful run, a second run (however the API lists the devices) issues no call at all exactly
   when the configuration is duplicate-free and no unconfigured assignment was attached twice at first.
   */
  lemma SecondRunIsIdle(
    start: Remote, devices: seq<Device>, configured: seq<Assignment>, deletes: seq<GoInt>, run: seq<Step>,
    devices2: seq<Device>, deletes2: seq<GoInt>, run2: seq<Step>, ok2: bool
  )
    requires IsReconcileRun(start, devices, configured, deletes, run, true)
    requires IsReconcileRun(StateAfter(start, run, |run|), devices2, configured, deletes2, run2, ok2)
    ensures run2 == [] <==> Distinct(configured) && HiddenDuplicates(start, AsSet(configured)) == {}
  {
    var middle := StateAfter(start, run, |run|);
    ConvergesIffNoHiddenDuplicate(start, devices, configured, deletes, run);
    NoCallsIff(devices2, middle, configured);
    EmptyAsSet(deletes2);
  }

  /**
   A listing held since before a successful run, whatever listing the run itself saw, still lists the remote
   devices exactly when the configuration was duplicate-free and already attached: then no call was made.
   */
  lemma ListingStaysCurrentIff(
    start: Remote, held: seq<Device>, devices: seq<Device>, configured: seq<Assignment>, deletes: seq<GoInt>,
    run: seq<Step>
  )
    requires IsListing(held, start) && IsReconcileRun(start, devices, configured, deletes, run, true)
    ensures IsListing(held, StateAfter(start, run, |run|))
            <==> Distinct(configured) && AsSet(configured) == Assignments(start)
    ensures run == [] <==> Distinct(configured) && AsSet(configured) == Assignments(start)
  {
    var creates := ToCreate(DeviceMap(devices), configured);
    var end := StateAfter(start, run, |run|);
    NoCallsIff(devices, start, configured);
    EmptyAsSet(deletes);
    SuccessfulRunProgress(start, devices, configured, deletes, run);
    if |deletes| > 0 {
      assert deletes[0] in AsSet(deletes);
      var i :| 0 <= i < |held| && held[i].id == deletes[0];
      assert held[i].id !in end;
    } else if |creates| > 0 {
      assert creates[0] in AsSet(creates);
      var id :| id in end && id !in start && end[id] == creates[0];
      assert forall i :: 0 <= i < |held| ==> held[i].id != id;
    }
  }

  /** Reconciling one attached device to the empty configuration: the call made, and the held listing outdated. */
  lemma SingleDetach(a: Assignment)
    ensures IsListing([Device(1, a)], map[1 := a])
    ensures IsReconcileRun(map[1 := a], [Device(1, a)], [], [1], [Step(Delete(1), true, map[])], true)
    ensures StateAfter(map[1 := a], [Step(Delete(1), true, map[])], 1) == map[]
    ensures !IsListing([Device(1, a)], map[])
  {
    var start: Remote := map[1 := a];
    var devices := [Device(1, a)];
    var run := [Step(Delete(1), true, map[])];
    assert devices[0].id == 1;
    assert devices[..0] == [] && DeviceMap(devices) == map[a := 1];
    assert a in DeviceMap(devices) && DeviceMap(devices)[a] == 1;
    assert AsSet([1]) == ToDelete(DeviceMap(devices), []);
    assert start - {1} == map[];
    assert StateAfter(start, run, 0) == start;
  }

  /** Reconciling two attached devices to the empty configuration. */
  lemma TwoDetached(a: Assignment, b: Assignment)
    requires a != b
    ensures IsReconcileRun(map[1 := a, 2 := b], [Device(1, a), Device(2, b)], [], [1, 2],
                           [Step(Delete(1), true, map[2 := b]), Step(Delete(2), true, map[])], true)
  {
    var start: Remote, middle: Remote := map[1 := a, 2 := b], map[2 := b];
    var devices := [Device(1, a), Device(2, b)];
    var run := [Step(Delete(1), true, middle), Step(Delete(2), true, map[])];
    assert devices[0].id == 1 && devices[1].id == 2;
    assert devices[..1] == [Device(1, a)] && devices[..1][..0] == [];
    assert DeviceMap(devices[..1]) == map[a := 1];
    var m := DeviceMap(devices);
    assert m == map[a := 1, b := 2] && m[a] in ToDelete(m, []) && m[b] in ToDelete(m, []);
    assert AsSet([1, 2]) == ToDelete(m, []);
    assert start - {1} == middle && middle - {2} == map[];
    assert StateAfter(start, run, 0) == start && StateAfter(start, run, 1) == middle;
  }

  // ---------------------------------------------------------------- histories of attempts

  /** Everything present during a run was there at the start or is one of the assignments created so far. */
  lemma ProgressBounds(start: Remote, now: Remote, created: set<Assignment>, removed: set<GoInt>, id: GoInt)
    requires Progress(start, now, created, removed) && id in now
    ensures if id in start then now[id] == start[id] else now[id] in created
  {
  }

  lemma EffectKeepsDistinct(before: Remote, call: Call, after: Remote)
    requires DistinctAssignments(before) && TakesEffect(before, call, after)
    requires call.Create? ==> call.assignment !in Assignments(before)
    ensures DistinctAssignments(after)
  {
  }

  /** A planned creation is of an assignment that is not attached at that point. */
  lemma CreationIsNew(
    start: Remote, devices: seq<Device>, configured: seq<Assignment>, deletes: seq<GoInt>, now: Remote, k: nat
  )
    requires IsListing(devices, start) && Distinct(configured)
    requires k < |ToCreate(DeviceMap(devices), configured)|
    requires var creates := ToCreate(DeviceMap(devices), configured);
             Progress(start, now, CreatedBy(creates, k), RemovedBy(creates, deletes, k))
    ensures ToCreate(DeviceMap(devices), configured)[k] !in Assignments(now)
  {
    var creates := ToCreate(DeviceMap(devices), configured);
    DeviceMapReflectsRemote(devices, start);
    ToCreateDistinct(DeviceMap(devices), configured);
    assert creates[k] in AsSet(creates);
    assert forall id :: id in start ==> start[id] in Assignments(start);
    if creates[k] in Assignments(now) {
      var id :| id in now && now[id] == creates[k];
      ProgressBounds(start, now, CreatedBy(creates, k), RemovedBy(creates, deletes, k), id);
    }
  }

  /** At every point of every run from distinct assignments to distinct ones, the assignments are distinct. */
  lemma {:induction false} DistinctThroughout(
    start: Remote, devices: seq<Device>, configured: seq<Assignment>, deletes: seq<GoInt>, run: seq<Step>, ok: bool,
    k: nat
  )
    requires IsReconcileRun(start, devices, configured, deletes, run, ok) && k <= |run|
    requires DistinctAssignments(start) && Distinct(configured)
    ensures DistinctAssignments(StateAfter(start, run, k))
  {
    if k > 0 {
      DistinctThroughout(start, devices, configured, deletes, run, ok, k - 1);
      var creates := ToCreate(DeviceMap(devices), configured);
      var before := StateAfter(start, run, k - 1);
      assert Allowed(before, run[k - 1]);
      DeviceMapReflectsRemote(devices, start);
      RunProgress(start, creates, deletes, run, k - 1);
      assert run[k - 1].call == PlannedCall(creates, deletes, k - 1);
      if k - 1 < |creates| {
        CreationIsNew(start, devices, configured, deletes, before, k - 1);
      }
      if TakesEffect(before, run[k - 1].call, run[k - 1].after) {
        EffectKeepsDistinct(before, run[k - 1].call, run[k - 1].after);
      }
    }
  }

  /** One attempt to reconcile: the listing it saw, its delete order, its calls and whether it succeeded. */
  datatype Attempt = Attempt(devices: seq<Device>, deletes: seq<GoInt>, run: seq<Step>, ok: bool)

  function EndOf(start: Remote, attempts: seq<Attempt>): Remote
    decreases |attempts|
  {
    if attempts == [] then start
    else
      var last := attempts[|attempts| - 1];
      StateAfter(EndOf(start, attempts[..|attempts| - 1]), last.run, |last.run|)
  }

  /** Successive attempts at one configuration, each starting where the previous one stopped. */
  ghost predicate AreAttempts(start: Remote, configured: seq<Assignment>, attempts: seq<Attempt>)
    decreases |attempts|
  {
    attempts == [] ||
    (var front, last := attempts[..|attempts| - 1], attempts[|attempts| - 1];
     && AreAttempts(start, configured, front)
     && IsReconcileRun(EndOf(start, front), last.devices, configured, last.deletes, last.run, last.ok))
  }

  /**
   Over any history of attempts, failed or not: devices that were present and are configured still have
   their device IDs, the assignments stay distinct, and as soon as the last attempt succeeds they are
   exactly the configured ones.
   */
  lemma {:induction false} HistoryConverges(start: Remote, configured: seq<Assignment>, attempts: seq<Attempt>)
    requires DistinctAssignments(start) && Distinct(configured) && AreAttempts(start, configured, attempts)
    ensures DistinctAssignments(EndOf(start, attempts))
    ensures forall id :: id in start && start[id] in configured ==>
              id in EndOf(start, attempts) && EndOf(start, attempts)[id] == start[id]
    ensures attempts != [] && attempts[|attempts| - 1].ok ==> Assignments(EndOf(start, attempts)) == AsSet(configured)
    decreases |attempts|
  {
    if attempts != [] {
      var front, last := attempts[..|attempts| - 1], attempts[|attempts| - 1];
      var middle := EndOf(start, front);
      HistoryConverges(start, configured, front);
      DistinctThroughout(middle, last.devices, configured, last.deletes, last.run, last.ok, |last.run|);
      MakeBeforeBreak(middle, last.devices, configured, last.deletes, last.run, last.ok, |last.run|);
      if last.ok {
        ConvergesIffNoHiddenDuplicate(middle, last.devices, configured, last.deletes, last.run);
      }
    }
  }

  // ---------------------------------------------------------------- from plan to assignments and back

  /** The entity IDs of one kind, in list order, as read back by `AggregateEntityIDs`. */
  function EntityIDs(devices: seq<Device>, kind: EntityType): seq<GoInt> {
    if devices == [] then []
    else
      var last := devices[|devices| - 1];
      EntityIDs(devices[..|devices| - 1], kind) + (if last.entity.kind == kind then [last.entity.id] else [])
  }

  function IDsOfKind(assignments: set<Assignment>, kind: EntityType): set<GoInt> {
    set a | a in assignments && a.kind == kind :: a.id
  }

  function WithKind(ids: seq<GoInt>, kind: EntityType): (r: seq<Assignment>)
    ensures |r| == |ids| && forall i :: 0 <= i < |ids| ==> r[i] == Assignment(ids[i], kind)
  {
    seq(|ids|, i requires 0 <= i < |ids| => Assignment(ids[i], kind))
  }

  /** The assignment list that `Update` hands to the reconciliation. */
  function ConfiguredAssignments(
    linodes: seq<GoInt>, nodeBalancers: seq<GoInt>, interfaces: seq<GoInt>
  ): seq<Assignment> {
    WithKind(linodes, Linode) + WithKind(nodeBalancers, NodeBalancer) + WithKind(interfaces, LinodeInterface)
  }

  lemma {:induction false} EntityIDsMembers(devices: seq<Device>, kind: EntityType)
    ensures forall x :: x in EntityIDs(devices, kind)
              <==> exists i :: 0 <= i < |devices| && devices[i].entity == Assignment(x, kind)
  {
    if devices != [] {
      var init, last := devices[..|devices| - 1], devices[|devices| - 1];
      EntityIDsMembers(init, kind);
      forall x
        ensures x in EntityIDs(devices, kind)
                <==> exists i :: 0 <= i < |devices| && devices[i].entity == Assignment(x, kind)
      {
        if x in EntityIDs(init, kind) {
          var i :| 0 <= i < |init| && init[i].entity == Assignment(x, kind);
          assert devices[i].entity == Assignment(x, kind);
        }
        if last.entity == Assignment(x, kind) {
          assert devices[|devices| - 1].entity == Assignment(x, kind);
        }
      }
    }
  }

  /** Reading a listing back by kind recovers the remote assignments of that kind. */
  lemma EntityIDsOfListing(devices: seq<Device>, remote: Remote, kind: EntityType)
    requires IsListing(devices, remote)
    ensures AsSet(EntityIDs(devices, kind)) == IDsOfKind(Assignments(remote), kind)
  {
    EntityIDsMembers(devices, kind);
    forall x ensures x in AsSet(EntityIDs(devices, kind)) <==> x in IDsOfKind(Assignments(remote), kind) {
      if x in EntityIDs(devices, kind) {
        var i :| 0 <= i < |devices| && devices[i].entity == Assignment(x, kind);
        assert remote[devices[i].id] in Assignments(remote);
      }
      if x in IDsOfKind(Assignments(remote), kind) {
        assert Assignment(x, kind) in Assignments(remote);
        var id :| id in remote && remote[id] == Assignment(x, kind);
        var i :| 0 <= i < |devices| && devices[i].id == id;
        assert devices[i].entity == Assignment(x, kind);
      }
    }
  }

  /** The assignment list built from three ID lists has no duplicates if they have none. */
  lemma ConfiguredDistinct(linodes: seq<GoInt>, nodeBalancers: seq<GoInt>, interfaces: seq<GoInt>)
    requires Distinct(linodes) && Distinct(nodeBalancers) && Distinct(interfaces)
    ensures Distinct(ConfiguredAssignments(linodes, nodeBalancers, interfaces))
  {
  }

  /** Reading the built assignments back by kind gives the three ID lists as sets. */
  lemma ConfiguredByKind(linodes: seq<GoInt>, nodeBalancers: seq<GoInt>, interfaces: seq<GoInt>)
    ensures var all := AsSet(ConfiguredAssignments(linodes, nodeBalancers, interfaces));
            && IDsOfKind(all, Linode) == AsSet(linodes)
            && IDsOfKind(all, NodeBalancer) == AsSet(nodeBalancers)
            && IDsOfKind(all, LinodeInterface) == AsSet(interfaces)
  {
  }

  /** The three ID sets read back from a listing. */
  ghost predicate ReadsBack(
    devices: seq<Device>, linodes: set<GoInt>, nodeBalancers: set<GoInt>, interfaces: set<GoInt>
  ) {
    && AsSet(EntityIDs(devices, Linode)) == linodes
    && AsSet(EntityIDs(devices, NodeBalancer)) == nodeBalancers
    && AsSet(EntityIDs(devices, LinodeInterface)) == interfaces
  }

  /**
   Apply, then refresh: after a successful run for three duplicate-free ID lists, any later listing reads
   back exactly those three sets if and only if no unconfigured linode, node balancer or interface was
   attached twice at the start.
   */
  lemma ApplyThenRefreshEqualsPlan(
    start: Remote, devices: seq<Device>, linodes: seq<GoInt>, nodeBalancers: seq<GoInt>, interfaces: seq<GoInt>,
    deletes: seq<GoInt>, run: seq<Step>, refreshed: seq<Device>
  )
    requires IsReconcileRun(start, devices, ConfiguredAssignments(linodes, nodeBalancers, interfaces), deletes, run,
                            true)
    requires IsListing(refreshed, StateAfter(start, run, |run|))
    ensures ReadsBack(refreshed, AsSet(linodes), AsSet(nodeBalancers), AsSet(interfaces))
            <==> var configured := AsSet(ConfiguredAssignments(linodes, nodeBalancers, interfaces));
                 forall a :: a in HiddenDuplicates(start, configured) ==> a.kind.OtherType?
  {
    var configured := ConfiguredAssignments(linodes, nodeBalancers, interfaces);
    var hidden := HiddenDuplicates(start, AsSet(configured));
    var end := Assignments(StateAfter(start, run, |run|));
    SuccessfulRunLeaves(start, devices, configured, deletes, run);
    ConfiguredByKind(linodes, nodeBalancers, interfaces);
    forall kind ensures AsSet(EntityIDs(refreshed, kind)) == IDsOfKind(end, kind)
                ensures IDsOfKind(end, kind) == IDsOfKind(AsSet(configured), kind) <==> IDsOfKind(hidden, kind) == {} {
      EntityIDsOfListing(refreshed, StateAfter(start, run, |run|), kind);
      HiddenAreExtra(AsSet(configured), hidden, kind);
    }
    forall a | a in hidden && !a.kind.OtherType? ensures IDsOfKind(hidden, a.kind) != {} {
      assert a.id in IDsOfKind(hidden, a.kind);
    }
    assert forall kind, x :: x in IDsOfKind(hidden, kind) ==> Assignment(x, kind) in hidden;
  }

  lemma HiddenAreExtra(configured: set<Assignment>, hidden: set<Assignment>, kind: EntityType)
    requires configured !! hidden
    ensures IDsOfKind(configured + hidden, kind) == IDsOfKind(configured, kind) <==> IDsOfKind(hidden, kind) == {}
  {
    assert IDsOfKind(configured + hidden, kind) == IDsOfKind(configured, kind) + IDsOfKind(hidden, kind);
    if IDsOfKind(hidden, kind) != {} {
      var x :| x in IDsOfKind(hidden, kind);
      assert Assignment(x, kind) in hidden;
      assert x !in IDsOfKind(configured, kind);
    }
  }
}
