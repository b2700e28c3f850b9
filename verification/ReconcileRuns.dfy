/** Any number of undisturbed reconciles: the store goes through a run of the chain. */
module ReconcileRuns {
  import opened Common
  import opened Triple
  import opened ChainOptions
  import opened ChainModel
  import opened ChainFacts
  import opened ChainInvariant
  import opened ChainPrediction
  import opened ChainRest
  import opened ChainRuns
  import opened ApiServer
  import opened Configuration
  import opened Reading
  import opened Writing
  import opened Sharing
  import opened Reconciling

  /** What one undisturbed reconcile does to the objects: it reads, updates and writes. */
  ghost predicate Reconciles(o: Options, refs: set<ObjectKey>, ca: ObjectKey, objects: Objects, next: Objects, version: nat,
                             tick: Tick) {
    && AllWellKinded(objects)
    && exists d :: Describes(objects, refs, ca, d)
         && Written(objects, next, version, Managed(objects, refs, ca), Step(o, d, tick.draw, tick.now))
  }

  /** Objects before and after each of several reconciles, the first of which finds `start`. */
  ghost predicate ReconcileRun(o: Options, refs: set<ObjectKey>, ca: ObjectKey, start: ChainData, stores: seq<Objects>,
                               versions: seq<nat>, ticks: seq<Tick>) {
    && |stores| == |ticks| + 1 && |versions| == |ticks|
    && Sound(stores[0], refs, ca) && Describes(stores[0], refs, ca, start)
    && forall i :: 0 <= i < |ticks| ==> Reconciles(o, refs, ca, stores[i], stores[i + 1], versions[i], ticks[i])
  }

  /** The same webhooks call the same services. */
  ghost predicate SameServices(objects: Objects, next: Objects, refs: set<ObjectKey>) {
    && Configs(next, refs) == Configs(objects, refs)
    && forall c <- Configs(objects, refs) :: ServiceAt(next, c) == ServiceAt(objects, c)
  }

  lemma SameServicesTransitive(a: Objects, b: Objects, c: Objects, refs: set<ObjectKey>)
    requires SameServices(a, b, refs) && SameServices(b, c, refs)
    ensures SameServices(a, c, refs)
  {
    hide Configs, ServiceAt;
  }

  lemma WritingKeepsServices(objects: Objects, next: Objects, version: nat, refs: set<ObjectKey>, ca: ObjectKey,
                             d: ChainData, e: ChainData)
    requires WrittenBack(objects, next, version, refs, ca, d, e)
    ensures SameServices(objects, next, refs)
  {
    hide WrittenBack, Configs, ServiceAt;
    SameConfigs(objects, next, version, refs, ca, d, e);
    forall c <- Configs(objects, refs) ensures ServiceAt(next, c) == ServiceAt(objects, c) {
      ConfigWritten(objects, next, version, refs, ca, d, e, c);
    }
  }

  lemma InvStepKeepsServices(o: Options, refs: set<ObjectKey>, ca: ObjectKey, objects: Objects, next: Objects, version: nat,
                             d: ChainData, tick: Tick)
    requires AllWellKinded(objects) && Sound(objects, refs, ca) && Describes(objects, refs, ca, d)
    requires Inv(o, Step(o, d, tick.draw, tick.now), tick.now)
    requires Written(objects, next, version, Managed(objects, refs, ca), Step(o, d, tick.draw, tick.now))
    ensures SameServices(objects, next, refs)
  {
    hide AllWellKinded, Sound, Describes, Inv, Written, Managed, Step, Matches, NoEmptyBundle, Coherent, LastsUnexpired, SameServices;
    var e := Step(o, d, tick.draw, tick.now);
    InvCoherent(o, e, tick.now);
    UpdatedMatches(o, d, tick.draw, tick.now);
    WritingKeepsServices(objects, next, version, refs, ca, d, e);
  }

  lemma FirstReconcile(o: Options, refs: set<ObjectKey>, ca: ObjectKey, start: ChainData, objects: Objects, next: Objects,
                       version: nat, tick: Tick)
    requires Workable(o) && Starts(o, start, tick.now)
    requires Sound(objects, refs, ca) && Describes(objects, refs, ca, start)
    requires Reconciles(o, refs, ca, objects, next, version, tick)
    ensures Settled(next, refs, ca, o, Step(o, start, tick.draw, tick.now), tick.now) && SameServices(objects, next, refs)
  {
    hide AllWellKinded, Sound, Describes, Inv, Written, Managed, Step, Starts, SameServices, Settled, HasBundle, Workable;
    var d :| Describes(objects, refs, ca, d)
             && Written(objects, next, version, Managed(objects, refs, ca), Step(o, d, tick.draw, tick.now));
    DescribesOne(objects, refs, ca, d, start);
    FirstStepInv(o, start, tick.draw, tick.now);
    WritingSettles(objects, next, version, refs, ca, o, d, tick.draw, tick.now);
    InvStepKeepsServices(o, refs, ca, objects, next, version, d, tick);
  }

  lemma LaterReconcile(o: Options, refs: set<ObjectKey>, ca: ObjectKey, e: ChainData, objects: Objects, next: Objects,
                       version: nat, prior: Time, tick: Tick)
    requires Workable(o) && prior <= tick.now && Configs(objects, refs) != {}
    requires Settled(objects, refs, ca, o, e, prior) && Reconciles(o, refs, ca, objects, next, version, tick)
    ensures Settled(next, refs, ca, o, Step(o, e, tick.draw, tick.now), tick.now) && SameServices(objects, next, refs)
  {
    hide AllWellKinded, Sound, Describes, Inv, Written, Managed, Updated, Decoded, SameServices, Workable, Configs, Strip, Coherent,
      UpToDate;
    var d :| Describes(objects, refs, ca, d)
             && Written(objects, next, version, Managed(objects, refs, ca), Step(o, d, tick.draw, tick.now));
    DescribesOne(objects, refs, ca, d, Strip(e));
    DecodedStrip(e);
    StaysSettled(objects, next, version, refs, ca, o, e, tick.draw, prior, tick.now);
    InvStepKeepsServices(o, refs, ca, objects, next, version, d, tick);
  }

  /**
   * After any number of undisturbed reconciles at non-decreasing times, the
   * first of which rotates everything, the objects hold what the same number of
   * updates in memory would have led to.
   */
  lemma {:induction false} StoresFollowRun(o: Options, refs: set<ObjectKey>, ca: ObjectKey, start: ChainData,
                                           stores: seq<Objects>, versions: seq<nat>, ticks: seq<Tick>, k: nat)
    requires Workable(o) && Ordered(ticks) && 1 <= k <= |ticks| && Starts(o, start, ticks[0].now)
    requires ReconcileRun(o, refs, ca, start, stores, versions, ticks) && Configs(stores[0], refs) != {}
    ensures Settled(stores[k], refs, ca, o, Run(o, start, ticks[..k]), ticks[k - 1].now)
    ensures SameServices(stores[0], stores[k], refs)
    decreases k
  {
    hide Sound, Describes, Reconciles, Settled, Starts, Step, Configs, SameServices, Run, Workable;
    assert Reconciles(o, refs, ca, stores[k - 1], stores[k - 1 + 1], versions[k - 1], ticks[k - 1]);
    RunStep(o, start, ticks, k - 1);
    if k == 1 {
      RunEmpty(o, start, ticks);
      FirstReconcile(o, refs, ca, start, stores[0], stores[1], versions[0], ticks[0]);
    } else {
      StoresFollowRun(o, refs, ca, start, stores, versions, ticks, k - 1);
      ServicesRemain(stores[0], stores[k - 1], refs);
      LaterReconcile(o, refs, ca, Run(o, start, ticks[..k - 1]), stores[k - 1], stores[k], versions[k - 1],
                     ticks[k - 2].now, ticks[k - 1]);
      SameServicesTransitive(stores[0], stores[k - 1], stores[k], refs);
    }
  }

  lemma ServicesRemain(objects: Objects, next: Objects, refs: set<ObjectKey>)
    requires SameServices(objects, next, refs)
    ensures Configs(next, refs) == Configs(objects, refs)
  {
  }

  /** The certificates a service is given, and the bundle a webhook is called with. */
  function ServiceCerts(objects: Objects, c: Config): seq<Certificate> {
    CertsIn(SecretPEMs(Lookup(objects, SecretKey(ServiceAt(objects, c))), TLS_PRIVATE_KEY_KEY, TLS_CERT_KEY).1)
  }

  lemma SettledConfig(objects: Objects, refs: set<ObjectKey>, ca: ObjectKey, o: Options, e: ChainData, prior: Time, c: Config)
    requires Settled(objects, refs, ca, o, e, prior) && c in Configs(objects, refs)
    ensures var n := HostAt(objects, c);
            && n in e.issued && e.issued[n].certs == ServiceCerts(objects, c)
            && BundleAt(c) in e.issued[n].caCertPEM
            && e.issued[n].caCertPEM[BundleAt(c)] == WebhookAt(objects, c).caBundle
  {
    hide Configs, AllSecrets, ServiceAt, BundleAt, WebhookAt, Lookup, CARead, Serves, Bundles, Unambiguous, UpToDate, Strip,
      Inv, Coherent, NewCertificateIssue, SecretPEMs;
    var n := HostAt(objects, c);
    assert ConfigRead(Strip(e), objects, c, AllSecrets(objects, refs, ca));
    StripDomain(e);
    StripFacts(e, n);
    ConfigIsManaged(objects, refs, ca, c);
    IssueCertRead(objects, ServiceAt(objects, c), AllSecrets(objects, refs, ca));
    InvDecodes(o, e, prior, n);
  }

  lemma InvDecodes(o: Options, d: ChainData, now: Time, n: string)
    requires Inv(o, d, now) && n in d.issued
    ensures CertsIn(d.issued[n].certPEM) == d.issued[n].certs
  {
    assert CurrentIssue(o, d.issued[n], d.ca.keyPair.value, now);
    CurrentIssueDecodes(o, d.issued[n], d.ca.keyPair.value, now);
  }

  lemma StripDomain(d: ChainData)
    ensures Strip(d).issued.Keys == d.issued.Keys
  {
  }

  lemma IssueCertRead(objects: Objects, s: Service, secrets: set<ObjectKey>)
    requires SecretKey(s) in secrets
    ensures IssueRead(objects, s, secrets).certPEM
            == SecretPEMs(Lookup(objects, SecretKey(s)), TLS_PRIVATE_KEY_KEY, TLS_CERT_KEY).1
  {
  }

  /** The CA certificate stored after the k-th reconcile. */
  ghost function StoredCA(o: Options, start: ChainData, ticks: seq<Tick>, k: nat): Option<Certificate>
    requires k <= |ticks|
  {
    CACert(Run(o, start, ticks[..k]))
  }

  /**
   * What the rotation is for, at the level of the cluster: a certificate that
   * the secret of a service held after reconcile i verifies against the bundle
   * in every webhook of that service after any later reconcile j, for as long
   * as it and the CA certificate of then last.
   */
  lemma ClusterTrustContinuity(o: Options, refs: set<ObjectKey>, ca: ObjectKey, start: ChainData, stores: seq<Objects>,
                               versions: seq<nat>, ticks: seq<Tick>, i: nat, j: nat, c: Config, leaf: Certificate, t: Time)
    requires Workable(o) && Ordered(ticks) && 1 <= i <= j <= |ticks| && Starts(o, start, ticks[0].now)
    requires ReconcileRun(o, refs, ca, start, stores, versions, ticks)
    requires c in Configs(stores[0], refs) && leaf in ServiceCerts(stores[i], c)
    requires var signer := StoredCA(o, start, ticks, i);
             && signer.Some? && ticks[j - 1].now < signer.value.NotAfter()
             && ticks[j - 1].now <= t <= signer.value.NotAfter() && t <= leaf.NotAfter()
    ensures VerifiesAgainst(leaf, WebhookAt(stores[j], c).caBundle, t)
  {
    hide Sound, Describes, Reconciles, Settled, Starts, Configs, ServiceAt, Run, Workable, ServiceCerts, WebhookAt, BundleAt,
      VerifiesAgainst;
    StoresFollowRun(o, refs, ca, start, stores, versions, ticks, i);
    StoresFollowRun(o, refs, ca, start, stores, versions, ticks, j);
    SettledConfig(stores[i], refs, ca, o, Run(o, start, ticks[..i]), ticks[i - 1].now, c);
    SettledConfig(stores[j], refs, ca, o, Run(o, start, ticks[..j]), ticks[j - 1].now, c);
    TrustContinuity(o, start, ticks, i, j, HostAt(stores[i], c), BundleAt(c), leaf, t);
  }

  // ---- Fresh clusters ----

  /** Webhooks without bundles and no secrets yet. */
  ghost predicate Fresh(objects: Objects, refs: set<ObjectKey>, ca: ObjectKey) {
    && (forall c <- Configs(objects, refs) :: WebhookAt(objects, c).caBundle == [])
    && forall k <- AllSecrets(objects, refs, ca) :: k !in objects
  }

  /** Reading a fresh cluster with some service gives blank data, from which runs start. */
  lemma FreshStoreStartsRun(objects: Objects, refs: set<ObjectKey>, ca: ObjectKey, d: ChainData, o: Options, now: Time)
    requires Fresh(objects, refs, ca) && Describes(objects, refs, ca, d) && Configs(objects, refs) != {} && 0 <= now
    ensures Blank(d) && Starts(o, d, now)
  {
    hide Configs, AllSecrets, ServiceAt, BundleAt, WebhookAt, ActionAt;
    CAIsManaged(objects, refs, ca);
    forall n <- d.issued
      ensures d.issued[n].keyPEM == [] && d.issued[n].certPEM == []
      ensures forall b <- d.issued[n].caCertPEM :: d.issued[n].caCertPEM[b] == []
    {
      FreshIssue(objects, refs, ca, d, n);
    }
    NamedAndHosted(objects, refs, ca, d);
    BundlesAreConfigs(objects, refs, ca, d);
    BlankStarts(o, d, now);
  }

  lemma FreshIssue(objects: Objects, refs: set<ObjectKey>, ca: ObjectKey, d: ChainData, n: string)
    requires Fresh(objects, refs, ca) && Describes(objects, refs, ca, d) && n in d.issued
    ensures d.issued[n].keyPEM == [] && d.issued[n].certPEM == []
    ensures forall b <- d.issued[n].caCertPEM :: d.issued[n].caCertPEM[b] == []
  {
    hide Configs, AllSecrets, ServiceAt, BundleAt, WebhookAt, CARead, NewCertificateIssue;
    assert Serves(objects, Configs(objects, refs), n);
    var c :| c in Configs(objects, refs) && HostAt(objects, c) == n;
    assert ConfigRead(d, objects, c, AllSecrets(objects, refs, ca));
    ConfigIsManaged(objects, refs, ca, c);
    forall b <- d.issued[n].caCertPEM ensures d.issued[n].caCertPEM[b] == [] {
      assert Bundles(objects, Configs(objects, refs), n, b);
      var f :| f in Configs(objects, refs) && HostAt(objects, f) == n && BundleAt(f) == b;
      assert ConfigRead(d, objects, f, AllSecrets(objects, refs, ca));
    }
  }
}
