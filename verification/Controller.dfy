/**
 * The manager called again and again, as its controller does, while nobody else
 * writes to the store.
 */
module Controller {
  import opened Common
  import opened Triple
  import opened ChainOptions
  import opened ChainModel
  import opened ChainFacts
  import opened ChainInvariant
  import opened ChainPrediction
  import opened ChainRepair
  import opened ChainRuns
  import opened ApiServer
  import opened Configuration
  import opened Reading
  import opened Writing
  import opened Sharing
  import opened Worklist
  import opened Reconciling
  import opened ReconcileRuns
  import opened Delivery
  import opened Chain
  import opened ManagerSteps
  import opened CertificateManager

  /** A store to repair: the webhooks to manage are there, some name a service, and verification fails. */
  ghost predicate NeedsRepair(v: View, now: Time) {
    && Sound(v.objects, Refs(v), v.ca)
    && Refs(v) <= v.objects.Keys && Configs(v.objects, Refs(v)) != {}
    && !Verified(v, now)
  }

  lemma RepairStarts(v: View, o: Options, d: ChainData, now: Time)
    requires NeedsRepair(v, now) && Describes(v.objects, Refs(v), v.ca, d) && 0 <= now
    ensures Starts(o, d, now) && !StrictlyVerified(v.objects, Refs(v), v.ca, d, now)
  {
    hide Sound, Describes, Configs, StrictlyVerified, ActionAt, Decoded;
    VerifiedBy(v, d, now);
    UnverifiedRotatesAll(v.objects, Refs(v), v.ca, o, d, now);
    BundlesAreConfigs(v.objects, Refs(v), v.ca, d);
    NamedAndHosted(v.objects, Refs(v), v.ca, d);
  }

  /** What the first reconcile leaves behind: data as in runs, which rest until the returned time. */
  lemma RepairSettles(v: View, version: nat, next: Objects, o: Options, d: ChainData, draw: Draw, now: Time)
    requires Workable(o) && 0 <= now && AllWellKinded(v.objects)
    requires NeedsRepair(v, now) && Describes(v.objects, Refs(v), v.ca, d)
    requires Written(v.objects, next, version, AllManaged(v), Step(o, d, draw, now))
    ensures var e := Step(o, d, draw, now);
            && Settled(next, Refs(v), v.ca, o, e, now)
            && Verified(v.(objects := next), now)
            && Configs(next, Refs(v)) != {}
            && StepAt(o, d, draw, now) == NextDeadline(o, e)
  {
    hide Sound, Describes, Configs, StrictlyVerified, Step, StepAt, NextDeadline, Starts, Inv, Holding, Managed, Written, Strip, Verified,
      SameServices;
    RepairStarts(v, o, d, now);
    Repaired(v.objects, next, version, Refs(v), v.ca, o, d, draw, now);
    FirstReturned(o, d, draw, now);
    InvStepKeepsServices(o, Refs(v), v.ca, v.objects, next, version, d, Tick(now, draw));
    ServicesRemain(v.objects, next, Refs(v));
    HoldingIsDescribed(next, Refs(v), v.ca, Step(o, d, draw, now));
    VerifiedBy(v.(objects := next), Strip(Step(o, d, draw, now)), now);
  }

  lemma HoldingIsDescribed(objects: Objects, refs: set<ObjectKey>, ca: ObjectKey, e: ChainData)
    requires Holding(objects, refs, ca, e)
    ensures Sound(objects, refs, ca) && Describes(objects, refs, ca, Strip(e))
  {
    hide Sound, Describes, UpToDate, Managed, Strip, Coherent;
  }

  lemma SettledRests(v: View, o: Options, e: ChainData, prior: Time, now: Time)
    requires Settled(v.objects, Refs(v), v.ca, o, e, prior) && Configs(v.objects, Refs(v)) != {}
    requires 0 <= prior <= now < NextDeadline(o, e)
    ensures AtRest(v, o, e, now)
  {
    hide Configs, NextDeadline, Verifies, Holding, Inv;
    SettledVerifies(v.objects, Refs(v), v.ca, o, e, prior, now);
  }

  /** A reconcile of a store to repair leaves it settled, and verified at the same time. */
  method Repair(m: Manager, now: Time) returns (r: Outcome<Time>, ghost e: ChainData)
    requires m.client.Valid() && Quiet(m.client.schedule) && !m.verifying && m.Configured() && Workable(m.options) && 0 <= now
    requires m.client as object != m.keys && m as object != m.client && m as object != m.keys
    requires NeedsRepair(m.ViewOf(m.client.objects), now)
    modifies m.client, m.keys
    ensures m.client.Valid() && Quiet(m.client.schedule)
    ensures var v := m.ViewOf(m.client.objects);
            r.Done? ==>
              && Settled(v.objects, Refs(v), v.ca, m.options, e, now) && Configs(v.objects, Refs(v)) != {}
              && Sound(v.objects, Refs(v), v.ca) && Verified(v, now)
              && AllEquipped(v.objects, Refs(v), v.ca)
              && r.value == NextDeadline(m.options, e) - now
  {
    hide NeedsRepair, Verified, Sound, Describes, Written, Settled, AllManaged, Step, StepAt, Workable, Quiet, ValidStore, Configs,
      Repairs, AtRest, SucceedsUnshared, WrittenUndisturbed, Drawn, NextDeadline, Refs, AllEquipped, AllWellKinded;
    ghost var v, version := m.ViewOf(m.client.objects), m.client.lastVersion;
    StoreIsWellKinded(m.client.State());
    NeedsRepairIsSound(v, now);
    ghost var d, draw, mark;
    r, d, draw, mark := m.Reconcile(now);
    e := Step(m.options, d, draw, now);
    if r.Done? {
      UndisturbedWritten(v, version, m.client.objects, e);
      RepairSettles(v, version, m.client.objects, m.options, d, draw, now);
      SameRefs(v, m.ViewOf(m.client.objects));
      SettledIsSound(m.client.objects, Refs(v), v.ca, m.options, e, now);
      SettledStoreEquips(m.client.State(), Refs(v), v.ca, m.options, e, now);
    }
  }

  /** Repair, then verify: a reconcile that returns is followed by a successful strict verification. */
  method ReconcileAndVerify(m: Manager, now: Time) returns (r: Outcome<Time>, verdict: Verdict)
    requires m.client.Valid() && Quiet(m.client.schedule) && !m.verifying && m.Configured() && Workable(m.options) && 0 <= now
    requires m.client as object != m.keys && m as object != m.client && m as object != m.keys
    requires NeedsRepair(m.ViewOf(m.client.objects), now)
    modifies m`verifying, m.client, m.keys
    ensures r.Done? ==> verdict == Trusted
  {
    hide NeedsRepair, Verified, Sound, Settled, Workable, Quiet, Configs, Refs, NextDeadline, ValidStore, Accepted, WithDefaults;
    ghost var e;
    r, e := Repair(m, now);
    verdict := m.VerifyTLS(now);
  }

  lemma StoreIsWellKinded(s: Store)
    requires ValidStore(s)
    ensures AllWellKinded(s.objects)
  {
  }

  lemma SettledStoreEquips(s: Store, refs: set<ObjectKey>, ca: ObjectKey, o: Options, e: ChainData, prior: Time)
    requires ValidStore(s) && Settled(s.objects, refs, ca, o, e, prior)
    ensures AllEquipped(s.objects, refs, ca)
  {
    hide ValidStore, Settled, AllEquipped, AllWellKinded;
    StoreIsWellKinded(s);
    SettledEquipsAll(s.objects, refs, ca, o, e, prior);
  }

  lemma NeedsRepairIsSound(v: View, now: Time)
    requires NeedsRepair(v, now)
    ensures Sound(v.objects, Refs(v), v.ca)
  {
    hide Sound;
  }

  lemma SettledIsSound(objects: Objects, refs: set<ObjectKey>, ca: ObjectKey, o: Options, e: ChainData, prior: Time)
    requires Settled(objects, refs, ca, o, e, prior)
    ensures Sound(objects, refs, ca)
  {
    hide Holding, Inv;
    HoldingIsDescribed(objects, refs, ca, e);
  }

  lemma UndisturbedWritten(v: View, version: nat, next: Objects, e: ChainData)
    requires WrittenUndisturbed(v, version, next, e, true)
    ensures Written(v.objects, next, version, AllManaged(v), e)
  {
    hide Written, AllManaged, Clash;
  }

  /** A reconcile of a store at rest. */
  method ReconcileAtRest(m: Manager, later: Time, ghost e: ChainData) returns (r: Outcome<Time>)
    requires m.client.Valid() && Quiet(m.client.schedule) && !m.verifying && m.Configured() && 0 <= later
    requires m.client as object != m.keys && m as object != m.client && m as object != m.keys
    requires AtRest(m.ViewOf(m.client.objects), m.options, e, later)
    modifies m.client, m.keys
    ensures r == Done(NextDeadline(m.options, e) - later)
    ensures m.client.State() == old(m.client.State()) && Asked(old(m.client.log), m.client.log)
  {
    hide *;
    ghost var v := m.ViewOf(m.client.objects);
    ghost var d, draw, mark;
    r, d, draw, mark := m.Reconcile(later);
    assert AtRest(v, m.options, e, later);
  }

  /**
   * Two reconciles: one that comes before the time the first asked for writes
   * nothing and asks for the same time.
   */
  method ReconcileTwice(m: Manager, now: Time, later: Time)
    returns (first: Outcome<Time>, second: Outcome<Time>, ghost between: Store, ghost log: seq<Event>)
    requires m.client.Valid() && Quiet(m.client.schedule) && !m.verifying && m.Configured() && Workable(m.options)
    requires m.client as object != m.keys && m as object != m.client && m as object != m.keys
    requires 0 <= now <= later && NeedsRepair(m.ViewOf(m.client.objects), now)
    modifies m.client, m.keys
    ensures first.Done? && later < now + first.value ==>
              && second == Done(now + first.value - later)
              && m.client.State() == between && Asked(log, m.client.log)
  {
    hide NeedsRepair, Verified, Sound, Describes, Settled, Workable, Quiet, Configs, Refs, NextDeadline, ValidStore, Accepted,
      WithDefaults, AtRest, Repairs, SucceedsUnshared, WrittenUndisturbed, Drawn, Step, StepAt;
    ghost var e;
    first, e := Repair(m, now);
    between, log := m.client.State(), m.client.log;
    if first.Done? && later < now + first.value {
      SettledRests(m.ViewOf(m.client.objects), m.options, e, now, later);
      second := ReconcileAtRest(m, later, e);
    } else {
      ghost var d, draw, mark;
      second, d, draw, mark := m.Reconcile(later);
    }
  }

  /** What a number of reconciles found, computed and left. */
  datatype History = History(start: ChainData, stores: seq<Objects>, versions: seq<nat>, ticks: seq<Tick>)

  ghost predicate Recounts(h: History, v: View, o: Options, times: seq<Time>) {
    && ReconcileRun(o, Refs(v), v.ca, h.start, h.stores, h.versions, h.ticks)
    && h.stores[0] == v.objects
    && |h.ticks| == |times| && forall i :: 0 <= i < |times| ==> h.ticks[i].now == times[i]
  }

  lemma RecountsMore(h: History, v: View, o: Options, times: seq<Time>, next: Objects, version: nat, tick: Tick)
    requires Recounts(h, v, o, times) && Reconciles(o, Refs(v), v.ca, Last(h.stores), next, version, tick)
    ensures Recounts(History(h.start, h.stores + [next], h.versions + [version], h.ticks + [tick]), v, o, times + [tick.now])
  {
    hide Sound, Describes, Reconciles, Refs;
    var stores, versions, ticks := h.stores + [next], h.versions + [version], h.ticks + [tick];
    forall i | 0 <= i < |ticks| ensures Reconciles(o, Refs(v), v.ca, stores[i], stores[i + 1], versions[i], ticks[i]) {
      if i < |h.ticks| {
        assert Reconciles(o, Refs(v), v.ca, h.stores[i], h.stores[i + 1], h.versions[i], h.ticks[i]);
      }
    }
  }

  lemma RecountsNothing(v: View, o: Options, d: ChainData)
    requires Sound(v.objects, Refs(v), v.ca) && Describes(v.objects, Refs(v), v.ca, d)
    ensures Recounts(History(d, [v.objects], [], []), v, o, [])
  {
    hide Sound, Describes, Reconciles;
  }

  lemma RecountedRun(h: History, v: View, o: Options, times: seq<Time>)
    requires Workable(o) && Recounts(h, v, o, times) && times != [] && Starts(o, h.start, times[0])
    requires forall i, j :: 0 <= i < j < |times| ==> times[i] <= times[j]
    requires Configs(v.objects, Refs(v)) != {}
    ensures Settled(Last(h.stores), Refs(v), v.ca, o, Run(o, h.start, h.ticks), Last(times))
  {
    hide Sound, Describes, Reconciles, Starts, Configs, Settled, Run, Workable, Refs;
    assert h.ticks[..|times|] == h.ticks;
    StoresFollowRun(o, Refs(v), v.ca, h.start, h.stores, h.versions, h.ticks, |times|);
  }

  /** One call from the controller. */
  method ReconcileOnce(m: Manager, now: Time) returns (ok: bool, ghost d: ChainData, ghost tick: Tick)
    requires m.client.Valid() && Quiet(m.client.schedule) && !m.verifying && m.Configured() && 0 <= now
    requires m.client as object != m.keys && m as object != m.client && m as object != m.keys
    requires var v := m.ViewOf(m.client.objects); Sound(v.objects, Refs(v), v.ca)
    modifies m.client, m.keys
    ensures m.client.Valid() && Quiet(m.client.schedule)
    ensures var v := m.ViewOf(old(m.client.objects));
            ok ==>
              && Describes(v.objects, Refs(v), v.ca, d) && tick.now == now
              && Reconciles(m.options, Refs(v), v.ca, v.objects, m.client.objects, old(m.client.lastVersion), tick)
              && AllDelivered(m.client.objects, Refs(v), Step(m.options, d, tick.draw, now))
  {
    hide Sound, Describes, Written, AllManaged, Step, StepAt, Quiet, ValidStore, Repairs, AtRest, SucceedsUnshared,
      WrittenUndisturbed, Drawn, NextDeadline, Refs, Reconciles, AllDelivered, AllWellKinded;
    ghost var v, version := m.ViewOf(m.client.objects), m.client.lastVersion;
    StoreIsWellKinded(m.client.State());
    var r;
    ghost var draw, mark;
    r, d, draw, mark := m.Reconcile(now);
    ok, tick := r.Done?, Tick(now, draw);
    if ok {
      UndisturbedWritten(v, version, m.client.objects, Step(m.options, d, draw, now));
      ReconciledOnce(v, m.options, d, m.client.objects, version, tick);
      OnceDelivers(v, m.options, d, m.client.objects, version, tick);
    }
  }

  /**
   * The controller's life in a quiet cluster: as long as its reconciles return,
   * they take the objects through a run of the chain.
   */
  method ReconcileAll(m: Manager, times: seq<Time>) returns (ok: bool, ghost h: History)
    requires m.client.Valid() && Quiet(m.client.schedule) && !m.verifying && m.Configured() && Workable(m.options)
    requires m.client as object != m.keys && m as object != m.client && m as object != m.keys
    requires times != [] && 0 <= times[0] && forall i, j :: 0 <= i < j < |times| ==> times[i] <= times[j]
    requires NeedsRepair(m.ViewOf(m.client.objects), times[0])
    modifies m.client, m.keys
    ensures var v := m.ViewOf(old(m.client.objects));
            ok ==>
              && Recounts(h, v, m.options, times) && Starts(m.options, h.start, times[0])
              && m.client.objects == Last(h.stores)
              && Settled(m.client.objects, Refs(v), v.ca, m.options, Run(m.options, h.start, h.ticks), Last(times))
              && AllEquipped(m.client.objects, Refs(v), v.ca)
  {
    hide NeedsRepair, Sound, Describes, Settled, Workable, Quiet, ValidStore, Configs, Starts, Run, Recounts, Refs, Reconciles,
      Accepted, WithDefaults, AllEquipped, AllDelivered, Decoded, Step;
    ghost var v := m.ViewOf(m.client.objects);
    NeedsRepairIsSound(v, times[0]);
    NeedsRepairHasConfigs(v, times[0]);
    h := History(ChainData(map[], CA("", [], [], None)), [v.objects], [], []);
    for i := 0 to |times|
      invariant m.client.Valid() && Quiet(m.client.schedule) && !m.verifying
      invariant h.stores != [] && Last(h.stores) == m.client.objects
      invariant i == 0 ==> m.client.objects == v.objects
      invariant i > 0 ==> Recounts(h, v, m.options, times[..i]) && Starts(m.options, h.start, times[0])
    {
      ghost var found, version := m.client.objects, m.client.lastVersion;
      SameRefs(v, m.ViewOf(found));
      if i > 0 {
        RecountedRun(h, v, m.options, times[..i]);
        SettledIsSound(found, Refs(v), v.ca, m.options, Run(m.options, h.start, h.ticks), Last(times[..i]));
      }
      assert 0 <= times[i];
      ghost var d, tick;
      ok, d, tick := ReconcileOnce(m, times[i]);
      if !ok {
        return;
      }
      if i == 0 {
        RepairStarts(v, m.options, d, times[0]);
        RecountsNothing(v, m.options, d);
        h := History(d, [v.objects], [], []);
        assert times[..0] == [];
      }
      RecountsMore(h, v, m.options, times[..i], m.client.objects, version, tick);
      assert times[..i] + [times[i]] == times[..i + 1];
      h := History(h.start, h.stores + [m.client.objects], h.versions + [version], h.ticks + [tick]);
    }
    assert times[..|times|] == times;
    RecountedRun(h, v, m.options, times);
    SettledStoreEquips(m.client.State(), Refs(v), v.ca, m.options, Run(m.options, h.start, h.ticks), Last(times));
    ok := true;
  }

  lemma NeedsRepairHasConfigs(v: View, now: Time)
    requires NeedsRepair(v, now)
    ensures Configs(v.objects, Refs(v)) != {}
  {
    hide Configs, Verified, Sound;
  }

  lemma SameRefs(v: View, w: View)
    requires v.listed == w.listed
    ensures Refs(v) == Refs(w)
  {
  }

  lemma OnceDelivers(v: View, o: Options, d: ChainData, next: Objects, version: nat, tick: Tick)
    requires Sound(v.objects, Refs(v), v.ca) && Describes(v.objects, Refs(v), v.ca, d)
    requires Written(v.objects, next, version, AllManaged(v), Step(o, d, tick.draw, tick.now))
    ensures AllDelivered(next, Refs(v), Step(o, d, tick.draw, tick.now))
  {
    hide Sound, Describes, Written, Managed, Step, AllDelivered;
    ReconcileDelivers(v.objects, next, version, Refs(v), v.ca, o, d, tick.draw, tick.now);
  }

  lemma ReconciledOnce(v: View, o: Options, d: ChainData, next: Objects, version: nat, tick: Tick)
    requires AllWellKinded(v.objects) && Describes(v.objects, Refs(v), v.ca, d)
    requires Written(v.objects, next, version, AllManaged(v), Step(o, d, tick.draw, tick.now))
    ensures Reconciles(o, Refs(v), v.ca, v.objects, next, version, tick)
  {
    hide AllWellKinded, Describes, Written, Managed, Step;
  }
}
