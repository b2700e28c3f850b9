/**
 * What one undisturbed reconcile achieves: it repairs a store that fails
 * verification, and leaves one that the next reconciles have no reason to touch.
 */
module Reconciling {
  import opened Common
  import opened Triple
  import opened ChainOptions
  import opened ChainModel
  import opened ChainFacts
  import opened ChainInvariant
  import opened ChainPrediction
  import opened ChainRepair
  import opened ChainRest
  import opened Chain
  import opened ApiServer
  import opened Configuration
  import opened Reading
  import opened Writing
  import opened Sharing

  // ---- What was read can be updated, and what was updated can be written ----

  lemma NamedAndHosted(objects: Objects, refs: set<ObjectKey>, ca: ObjectKey, d: ChainData)
    requires Describes(objects, refs, ca, d)
    ensures AllNamed(d) && AllHosted(d)
    ensures forall n <- d.issued :: d.issued[n].name == n && n in d.issued[n].hostnames && n + ".cluster.local" in d.issued[n].hostnames
  {
    hide Configs, AllSecrets, ServiceAt, Lookup, SecretPEMs, CARead, Bundles;
    forall n <- d.issued
      ensures d.issued[n].name != "" && d.issued[n].hostnames != []
      ensures d.issued[n].name == n && n in d.issued[n].hostnames && n + ".cluster.local" in d.issued[n].hostnames
    {
      assert Serves(objects, Configs(objects, refs), n);
      var c :| c in Configs(objects, refs) && HostAt(objects, c) == n;
      assert ConfigRead(d, objects, c, AllSecrets(objects, refs, ca));
      NewIssueNamed(ServiceAt(objects, c));
    }
  }

  lemma NewIssueNamed(s: Service)
    ensures var i, n := NewCertificateIssue(s), ServiceHostname(s);
            i.name == n && n != "" && n in i.hostnames && n + ".cluster.local" in i.hostnames
  {
    assert |ServiceHostname(s)| >= 4;
    var h := NewCertificateIssue(s).hostnames;
    assert h[2] in h && h[3] in h;
  }

  lemma DecodedShape(d: ChainData)
    ensures AllNamed(d) ==> AllNamed(Decoded(d))
    ensures AllHosted(d) ==> AllHosted(Decoded(d))
  {
  }

  lemma CoherentBundles(d: ChainData, now: Time, n: string)
    requires Coherent(d) && LastsUnexpired(d, now) && n in d.issued
    ensures d.issued[n].caCertPEM.Keys == d.issued[n].caCerts.Keys
    ensures forall b <- d.issued[n].caCertPEM :: d.issued[n].caCertPEM[b] != []
  {
    CoherentIssues(d);
    var i := d.issued[n];
    assert CoherentIssue(i);
    assert DecodedIssue(i).caCerts.Keys == i.caCertPEM.Keys;
    assert forall b <- i.caCertPEM :: i.caCerts[b] == CertsIn(i.caCertPEM[b]);
  }

  lemma UpdatedMatches(o: Options, d: ChainData, draw: Draw, now: Time)
    requires Coherent(Step(o, d, draw, now)) && LastsUnexpired(Step(o, d, draw, now), now)
    ensures Matches(d, Step(o, d, draw, now)) && NoEmptyBundle(Step(o, d, draw, now))
  {
    hide Coherent, LastsUnexpired, Updated;
    var e := Step(o, d, draw, now);
    ShapeKept(o, Decoded(d), draw, now);
    forall n <- e.issued
      ensures d.issued[n].name == e.issued[n].name && d.issued[n].hostnames == e.issued[n].hostnames
      ensures d.issued[n].caCertPEM.Keys == e.issued[n].caCertPEM.Keys
      ensures forall b <- e.issued[n].caCertPEM :: e.issued[n].caCertPEM[b] != []
    {
      assert SameIssue(Decoded(d).issued[n], e.issued[n]);
      CoherentBundles(e, now, n);
    }
  }

  /** There is a bundle exactly when some webhook names a service. */
  lemma BundlesAreConfigs(objects: Objects, refs: set<ObjectKey>, ca: ObjectKey, d: ChainData)
    requires Describes(objects, refs, ca, d)
    ensures HasBundle(Decoded(d)) <==> Configs(objects, refs) != {}
  {
    hide Configs, AllSecrets, CARead, IssueRead, ServiceAt, BundleAt, WebhookAt;
    assert forall n <- d.issued :: Serves(objects, Configs(objects, refs), n);
    if Configs(objects, refs) != {} {
      var c := SomeOf(Configs(objects, refs));
      assert ConfigRead(d, objects, c, AllSecrets(objects, refs, ca));
      assert BundleAt(c) in Decoded(d).issued[HostAt(objects, c)].caCerts;
    }
  }

  // ---- What is written is what is there ----

  /** Objects that hold exactly the chain data e, with nothing left to write. */
  ghost predicate Holding(objects: Objects, refs: set<ObjectKey>, ca: ObjectKey, e: ChainData) {
    && Sound(objects, refs, ca)
    && Describes(objects, refs, ca, Strip(e))
    && Coherent(e)
    && forall k <- Managed(objects, refs, ca) :: UpToDate(objects, k, e)
  }

  lemma WritingHolds(objects: Objects, next: Objects, version: nat, refs: set<ObjectKey>, ca: ObjectKey,
                     d: ChainData, e: ChainData)
    requires WrittenBack(objects, next, version, refs, ca, d, e) && Coherent(e)
    ensures Holding(next, refs, ca, e)
  {
    hide Sound, Describes, Coherent, UpToDate, Managed, Matches, NoEmptyBundle, Strip, AllWellKinded, WrittenAt;
    RoundTrip(objects, next, version, refs, ca, d, e);
    forall k <- Managed(next, refs, ca) ensures UpToDate(next, k, e) {
      WrittenLookup(objects, next, version, k, e);
    }
  }

  /** After any undisturbed reconcile the objects hold what the update left behind. */
  lemma ReconcileHolds(objects: Objects, next: Objects, version: nat, refs: set<ObjectKey>, ca: ObjectKey,
                       o: Options, d: ChainData, draw: Draw, now: Time)
    requires Workable(o) && MeasurableLists(o, Decoded(d)) && 0 <= now
    requires AllWellKinded(objects) && Sound(objects, refs, ca) && Describes(objects, refs, ca, d)
    requires Written(objects, next, version, Managed(objects, refs, ca), Step(o, d, draw, now))
    ensures Holding(next, refs, ca, Step(o, d, draw, now))
    ensures StepAt(o, d, draw, now) == NextDeadline(o, Step(o, d, draw, now))
  {
    hide Sound, Describes, Coherent, Holding, Managed, Matches, NoEmptyBundle, AllWellKinded, Written, Workable, MeasurableLists,
      Updated, UpdateAt, NextDeadline, Decoded, LastsUnexpired;
    DecodedIsCoherent(d);
    UpdateIsCoherent(o, Decoded(d), draw, now);
    UpdatedMatches(o, d, draw, now);
    WritingHolds(objects, next, version, refs, ca, d, Step(o, d, draw, now));
  }

  lemma HoldingDecodes(objects: Objects, refs: set<ObjectKey>, ca: ObjectKey, e: ChainData)
    requires Holding(objects, refs, ca, e)
    ensures Decoded(Strip(e)) == e
  {
    hide Sound, Describes, UpToDate, Managed, Strip, Decoded;
    DecodedStrip(e);
  }

  lemma RotatedCA(o: Options, d: ChainData, draw: Draw, now: Time)
    requires ActionAt(o, d, now) == RotateAll
    ensures Updated(o, d, draw, now).ca.keyPair.Some? && Updated(o, d, draw, now).ca.keyPair.value.key == draw.ca
    ensures DecodedCA(Updated(o, d, draw, now).ca) == Updated(o, d, draw, now).ca
    ensures Updated(o, d, draw, now).ca.name == d.ca.name
  {
    hide FindRotationDeadlineForCA, FindRotationDeadlineForCerts, Verifies, FindCleanUpDeadlineForCACerts,
      FindCleanUpDeadlineForCerts, DecodedCA;
    CoherentCA(d.ca, NewCA(d.ca.name, draw.ca, o.caRotateInterval, now));
  }

  /** A rotation with a new CA key has the CA secret to write. */
  lemma RotationIsWritten(objects: Objects, refs: set<ObjectKey>, ca: ObjectKey, o: Options, e: ChainData, draw: Draw, now: Time)
    requires Holding(objects, refs, ca, e) && AllWellKinded(objects)
    requires ActionAt(o, e, now) == RotateAll && NewKeys(e, draw, RotateAll)
    ensures ca in Managed(objects, refs, ca) && !UpToDate(objects, ca, Updated(o, e, draw, now))
  {
    hide ActionAt, Configs, AllSecrets, ConfigRead, Serves, Bundles, Updated, Agree, Lookup, NamespacedName, DecodedKeyPair,
      Managed, ServiceAt;
    var f := Updated(o, e, draw, now);
    RotatedCA(o, e, draw, now);
    CAIsManaged(objects, refs, ca);
    CANameRead(objects, ca, AllSecrets(objects, refs, ca));
    assert Strip(e).ca == CARead(objects, ca, AllSecrets(objects, refs, ca));
    if UpToDate(objects, ca, f) {
      CASecretUpToDate(objects, ca, f);
      assert f.ca.keyPEM == e.ca.keyPEM && f.ca.certPEM == e.ca.certPEM;
      assert DecodedCA(e.ca) == e.ca;
      SameKeyPair(e.ca, f.ca);
    }
  }

  lemma SameKeyPair(a: CA, b: CA)
    requires DecodedCA(a) == a && DecodedCA(b) == b && a.keyPEM == b.keyPEM && a.certPEM == b.certPEM
    ensures a.keyPair == b.keyPair
  {
  }

  lemma CASecretUpToDate(objects: Objects, ca: ObjectKey, d: ChainData)
    requires AllWellKinded(objects) && ca.kind == SecretKind && NamespacedName(ca.namespace, ca.name) == d.ca.name
    requires UpToDate(objects, ca, d)
    ensures SecretPEMs(Lookup(objects, ca), CA_PRIVATE_KEY_KEY, CA_CERT_KEY) == (d.ca.keyPEM, d.ca.certPEM)
  {
    hide NamespacedName;
    LookupWellKinded(objects, ca);
    var data := Lookup(objects, ca).content.data;
    assert MappedCASecret(data, d).data == data;
  }

  /**
   * Quiescence: before the next deadline of the data that the objects hold, a
   * reconcile finds every object up to date if and only if the data still
   * verify, and then asks to come back at the same time.
   */
  lemma Quiescence(objects: Objects, refs: set<ObjectKey>, ca: ObjectKey, o: Options, e: ChainData, draw: Draw, now: Time)
    requires Holding(objects, refs, ca, e) && AllWellKinded(objects)
    requires 0 <= now < NextDeadline(o, e) && NewKeys(e, draw, ActionAt(o, e, now))
    ensures (forall k <- Managed(objects, refs, ca) :: UpToDate(objects, k, Step(o, Strip(e), draw, now))) <==> Verifies(e, now)
    ensures Verifies(e, now) ==> Step(o, Strip(e), draw, now) == e && StepAt(o, Strip(e), draw, now) == NextDeadline(o, e)
  {
    hide Sound, Describes, UpToDate, Managed, Strip, Decoded, Updated, UpdateAt, NextDeadline, NewKeys, Verifies, AllWellKinded,
      FindRotationDeadlineForCA, FindRotationDeadlineForCerts;
    HoldingDecodes(objects, refs, ca, e);
    if Verifies(e, now) {
      VerifiedRests(o, e, draw, now);
    } else {
      RotationIsWritten(objects, refs, ca, o, e, draw, now);
    }
  }

  /** and as long as they verify, the store stays as it is. */
  lemma RestKeepsStore(objects: Objects, next: Objects, version: nat, refs: set<ObjectKey>, ca: ObjectKey, o: Options,
                       e: ChainData, draw: Draw, now: Time)
    requires Holding(objects, refs, ca, e) && 0 <= now < NextDeadline(o, e) && Verifies(e, now)
    requires Written(objects, next, version, Managed(objects, refs, ca), Step(o, Strip(e), draw, now))
    ensures next == objects
  {
    hide Sound, Describes, UpToDate, Managed, Strip, Decoded, Updated, UpdateAt, NextDeadline, Verifies, Written, Coherent;
    HoldingDecodes(objects, refs, ca, e);
    VerifiedRests(o, e, draw, now);
    UpToDateWritesNothing(objects, next, version, Managed(objects, refs, ca), e);
  }

  // ---- Settled stores ----

  /** Objects that hold data as they are in runs, after an update at prior. */
  ghost predicate Settled(objects: Objects, refs: set<ObjectKey>, ca: ObjectKey, o: Options, e: ChainData, prior: Time) {
    Holding(objects, refs, ca, e) && Inv(o, e, prior)
  }

  lemma InvCoherent(o: Options, d: ChainData, now: Time)
    requires Inv(o, d, now)
    ensures Coherent(d) && LastsUnexpired(d, now)
  {
    hide IssuedBy, Sorted, CoherentIssue;
    CoherentIssues(d);
  }

  /** Writing what an update left behind settles the store. */
  lemma WritingSettles(objects: Objects, next: Objects, version: nat, refs: set<ObjectKey>, ca: ObjectKey,
                       o: Options, d: ChainData, draw: Draw, now: Time)
    requires AllWellKinded(objects) && Sound(objects, refs, ca) && Describes(objects, refs, ca, d)
    requires Inv(o, Step(o, d, draw, now), now)
    requires Written(objects, next, version, Managed(objects, refs, ca), Step(o, d, draw, now))
    ensures Settled(next, refs, ca, o, Step(o, d, draw, now), now)
  {
    hide Sound, Describes, Inv, Coherent, Holding, Managed, Matches, NoEmptyBundle, Step, AllWellKinded, Written, LastsUnexpired;
    InvCoherent(o, Step(o, d, draw, now), now);
    UpdatedMatches(o, d, draw, now);
    WritingHolds(objects, next, version, refs, ca, d, Step(o, d, draw, now));
  }

  /** From then on every undisturbed reconcile, whenever it comes, leaves a settled store, */
  lemma StaysSettled(objects: Objects, next: Objects, version: nat, refs: set<ObjectKey>, ca: ObjectKey,
                     o: Options, e: ChainData, draw: Draw, prior: Time, now: Time)
    requires Workable(o) && AllWellKinded(objects) && Settled(objects, refs, ca, o, e, prior) && prior <= now
    requires Configs(objects, refs) != {}
    requires Written(objects, next, version, Managed(objects, refs, ca), Step(o, Strip(e), draw, now))
    ensures Settled(next, refs, ca, o, Step(o, Strip(e), draw, now), now)
  {
    hide Sound, Describes, Inv, Coherent, UpToDate, Managed, Strip, Decoded, AllWellKinded, Written, Workable, Updated, HasBundle,
      Configs;
    HoldingDecodes(objects, refs, ca, e);
    BundlesAreConfigs(objects, refs, ca, Strip(e));
    InvKept(o, e, draw, prior, now);
    WritingSettles(objects, next, version, refs, ca, o, Strip(e), draw, now);
  }

  /** and a settled store verifies until its next deadline. */
  lemma SettledVerifies(objects: Objects, refs: set<ObjectKey>, ca: ObjectKey, o: Options, e: ChainData, prior: Time, now: Time)
    requires Settled(objects, refs, ca, o, e, prior) && Configs(objects, refs) != {} && prior <= now < NextDeadline(o, e)
    ensures Verifies(e, now)
  {
    hide Sound, Describes, Inv, Coherent, UpToDate, Managed, Strip, Decoded, HasBundle, Configs, Verifies,
      FindCleanUpDeadlineForCACerts, FindCleanUpDeadlineForCerts, FindRotationDeadlineForCA, FindRotationDeadlineForCerts;
    HoldingDecodes(objects, refs, ca, e);
    BundlesAreConfigs(objects, refs, ca, Strip(e));
    VerifiesUntilDeadline(o, e, prior, now);
  }

  // ---- Repair ----

  /** Strict verification: everything is there and verifies. */
  ghost predicate StrictlyVerified(objects: Objects, refs: set<ObjectKey>, ca: ObjectKey, d: ChainData, now: Time) {
    Managed(objects, refs, ca) <= objects.Keys && Verifies(Decoded(d), now)
  }

  lemma NoCARotatesAll(o: Options, d: ChainData, now: Time)
    requires Coherent(d) && CACert(d).None? && 0 <= now
    ensures ActionAt(o, d, now) == RotateAll
  {
    hide FindRotationDeadlineForCA, FindRotationDeadlineForCerts, Verifies, HasBundle, HasEmptyBundle, Coherent;
    CADeadline(o, d);
    if HasBundle(d) && !HasEmptyBundle(d) && Verifies(d, now) {
      VerifiedHasCA(d, now);
    }
  }

  lemma MissingCASecret(objects: Objects, refs: set<ObjectKey>, ca: ObjectKey, o: Options, d: ChainData, now: Time)
    requires Describes(objects, refs, ca, d) && ca !in objects && 0 <= now
    ensures ActionAt(o, Decoded(d), now) == RotateAll
  {
    hide Configs, AllSecrets, ConfigRead, Serves, Bundles, ActionAt;
    CAIsManaged(objects, refs, ca);
    assert d.ca == CARead(objects, ca, AllSecrets(objects, refs, ca));
    assert d.ca.keyPEM == [];
    DecodedIsCoherent(d);
    NoCARotatesAll(o, Decoded(d), now);
  }

  lemma MissingServiceSecret(objects: Objects, refs: set<ObjectKey>, ca: ObjectKey, o: Options, d: ChainData, now: Time, c: Config)
    requires Describes(objects, refs, ca, d) && c in Configs(objects, refs)
    requires SecretKey(ServiceAt(objects, c)) !in objects
    ensures !Verifies(Decoded(d), now)
  {
    hide Configs, AllSecrets, ServiceAt, BundleAt, WebhookAt, NewCertificateIssue, ServiceHostname, Serves, Bundles, CARead;
    ConfigIsManaged(objects, refs, ca, c);
    var n := HostAt(objects, c);
    assert ConfigRead(d, objects, c, AllSecrets(objects, refs, ca));
    assert d.issued[n].keyPEM == [];
    KeylessFails(d, n, BundleAt(c), now);
  }

  lemma KeylessFails(d: ChainData, n: string, b: string, now: Time)
    requires n in d.issued && b in d.issued[n].caCertPEM && d.issued[n].keyPEM == []
    ensures !Verifies(Decoded(d), now)
  {
    var e := Decoded(d);
    assert n in e.issued && b in e.issued[n].caCertPEM;
    assert !TLSVerifies(e.issued[n].certPEM, e.issued[n].keyPEM, e.issued[n].caCertPEM[b], now);
  }

  /** Whatever is wrong, short of a missing webhook, makes the update rotate everything. */
  lemma UnverifiedRotatesAll(objects: Objects, refs: set<ObjectKey>, ca: ObjectKey, o: Options, d: ChainData, now: Time)
    requires Describes(objects, refs, ca, d) && 0 <= now && refs <= objects.Keys
    requires !StrictlyVerified(objects, refs, ca, d, now)
    ensures ActionAt(o, Decoded(d), now) == RotateAll
  {
    hide Describes, Configs, Decoded, FindRotationDeadlineForCA, FindRotationDeadlineForCerts, Verifies, ServiceAt;
    if Verifies(Decoded(d), now) {
      var k :| k in Managed(objects, refs, ca) && k !in objects.Keys;
      if k == ca {
        MissingCASecret(objects, refs, ca, o, d, now);
      } else {
        var c :| c in Configs(objects, refs) && SecretKey(ServiceAt(objects, c)) == k;
        MissingServiceSecret(objects, refs, ca, o, d, now, c);
      }
    }
  }

  lemma MissingSecretIsWritten(objects: Objects, key: ObjectKey, d: ChainData)
    requires key !in objects && key.kind == SecretKind
    requires NamespacedName(key.namespace, key.name) == d.ca.name
             || ServiceHostname(Service(key.namespace, key.name)) in d.issued
    ensures !UpToDate(objects, key, d)
  {
    hide ServiceHostname, NamespacedName;
  }

  lemma SecretsThere(objects: Objects, next: Objects, version: nat, refs: set<ObjectKey>, ca: ObjectKey,
                     d: ChainData, e: ChainData, key: ObjectKey)
    requires WrittenBack(objects, next, version, refs, ca, d, e) && key in AllSecrets(objects, refs, ca)
    ensures key in next
  {
    hide Configs, UpToDate, ServiceAt, Agree, Serves, Bundles, NoEmptyBundle, NamespacedName, ServiceHostname;
    assert key in Managed(objects, refs, ca) && WrittenAt(objects, next, version, key, e);
    if key !in objects {
      CANameRead(objects, ca, AllSecrets(objects, refs, ca));
      if key != ca {
        var c :| c in Configs(objects, refs) && SecretKey(ServiceAt(objects, c)) == key;
        assert ServiceAt(objects, c) == Service(key.namespace, key.name);
        assert ConfigRead(d, objects, c, AllSecrets(objects, refs, ca));
      }
      MissingSecretIsWritten(objects, key, e);
    }
  }

  /** Writing neither creates nor removes a webhook object. */
  lemma WebhooksStay(objects: Objects, next: Objects, version: nat, refs: set<ObjectKey>, ca: ObjectKey,
                     e: ChainData, key: ObjectKey)
    requires Written(objects, next, version, Managed(objects, refs, ca), e) && key in refs && key.kind != SecretKind
    ensures key in next <==> key in objects
  {
    hide AllSecrets, ClientConfigs;
    assert WrittenAt(objects, next, version, key, e);
    if key !in objects {
      NoWebhooks(key, e);
    }
  }

  lemma Repaired(objects: Objects, next: Objects, version: nat, refs: set<ObjectKey>, ca: ObjectKey,
                 o: Options, d: ChainData, draw: Draw, now: Time)
    requires Workable(o) && 0 <= now && AllWellKinded(objects)
    requires Sound(objects, refs, ca) && Describes(objects, refs, ca, d) && refs <= objects.Keys
    requires !StrictlyVerified(objects, refs, ca, d, now)
    requires Written(objects, next, version, Managed(objects, refs, ca), Step(o, d, draw, now))
    ensures Settled(next, refs, ca, o, Step(o, d, draw, now), now)
    ensures StrictlyVerified(next, refs, ca, Strip(Step(o, d, draw, now)), now)
  {
    hide Workable, AllWellKinded, Describes, Verifies, Inv, Strip, Decoded, UpToDate, Updated, ActionAt, WrittenAt, AllSecrets,
      Coherent, LastsUnexpired,
      Unambiguous, Matches, NoEmptyBundle, AllNamed, AllHosted, Configs;
    var e := Step(o, d, draw, now);
    UnverifiedRotatesAll(objects, refs, ca, o, d, now);
    NamedAndHosted(objects, refs, ca, d);
    DecodedShape(d);
    DecodedIsCoherent(d);
    InvEstablished(o, Decoded(d), draw, now);
    InvVerifies(o, e, now);
    InvCoherent(o, e, now);
    UpdatedMatches(o, d, draw, now);
    WritingSettles(objects, next, version, refs, ca, o, d, draw, now);
    HoldingDecodes(next, refs, ca, e);
    RoundTrip(objects, next, version, refs, ca, d, e);
    forall k <- Managed(next, refs, ca) ensures k in next {
      if k in refs {
        WebhooksStay(objects, next, version, refs, ca, e, k);
      } else {
        SecretsThere(objects, next, version, refs, ca, d, e, k);
      }
    }
  }

  /**
   * End-to-end repair: after an undisturbed reconcile of a store that fails
   * strict verification, what the store then describes passes it at the same
   * time, if and only if the webhook objects to manage were there.
   */
  lemma EndToEndRepair(objects: Objects, next: Objects, version: nat, refs: set<ObjectKey>, ca: ObjectKey,
                       o: Options, d: ChainData, draw: Draw, now: Time)
    requires Workable(o) && 0 <= now && AllWellKinded(objects)
    requires Sound(objects, refs, ca) && Describes(objects, refs, ca, d)
    requires !StrictlyVerified(objects, refs, ca, d, now)
    requires Written(objects, next, version, Managed(objects, refs, ca), Step(o, d, draw, now))
    ensures (exists e :: Describes(next, refs, ca, e) && StrictlyVerified(next, refs, ca, e, now)) <==> refs <= objects.Keys
  {
    hide Workable, AllWellKinded, Describes, Verifies, Inv, Strip, Decoded, UpToDate, Updated, Written, AllSecrets,
      Unambiguous, Configs, Step;
    if refs <= objects.Keys {
      Repaired(objects, next, version, refs, ca, o, d, draw, now);
      assert Describes(next, refs, ca, Strip(Step(o, d, draw, now)));
    } else {
      var k :| k in refs && k !in objects.Keys;
      WebhooksStay(objects, next, version, refs, ca, Step(o, d, draw, now), k);
      assert k in Managed(next, refs, ca) && k !in next.Keys;
    }
  }

  // ---- Shared services ----

  lemma RotatedKey(o: Options, d: ChainData, draw: Draw, now: Time, n: string)
    requires ActionAt(o, d, now) != Keep && CACertOrAll(o, d, now) && n in d.issued
    ensures n in Updated(o, d, draw, now).issued
    ensures Updated(o, d, draw, now).issued[n].keyPEM == EncodePrivateKeyPEM(LeafKey(draw, n))
    ensures Updated(o, d, draw, now).ca.name == d.ca.name
  {
    hide ActionAt, FindCleanUpDeadlineForCACerts, FindCleanUpDeadlineForCerts, EncodedCerts, CleanedUp;
  }

  ghost predicate CACertOrAll(o: Options, d: ChainData, now: Time) {
    ActionAt(o, d, now) == RotateAll || CACert(d).Some?
  }

  lemma NewKeyChangesSecret(objects: Objects, s: Service, d: ChainData, n: string)
    requires AllWellKinded(objects) && n == ServiceHostname(s) && n in d.issued
    requires NamespacedName(s.namespace, s.name) != d.ca.name
    requires UpToDate(objects, SecretKey(s), d)
    ensures SecretPEMs(Lookup(objects, SecretKey(s)), TLS_PRIVATE_KEY_KEY, TLS_CERT_KEY).0 == d.issued[n].keyPEM
  {
    hide ServiceHostname, NamespacedName;
    LookupWellKinded(objects, SecretKey(s));
    var data := Lookup(objects, SecretKey(s)).content.data;
    assert MappedServiceSecret(data, d.issued[n]).data == data;
  }

  /** A draw of keys that no issue is stored with. */
  predicate NewLeafKeys(d: ChainData, draw: Draw) {
    forall n <- d.issued :: d.issued[n].keyPEM != EncodePrivateKeyPEM(LeafKey(draw, n))
  }

  /** Any rotation has every service secret to write. */
  lemma RotationChangesSecret(objects: Objects, refs: set<ObjectKey>, ca: ObjectKey, o: Options,
                              d: ChainData, draw: Draw, now: Time, c: Config)
    requires AllWellKinded(objects) && Sound(objects, refs, ca) && Describes(objects, refs, ca, d) && 0 <= now
    requires c in Configs(objects, refs) && ActionAt(o, Decoded(d), now) != Keep && NewLeafKeys(d, draw)
    ensures !UpToDate(objects, SecretKey(ServiceAt(objects, c)), Step(o, d, draw, now))
  {
    hide ServiceAt, Configs, Lookup, Agree, ServiceHostname, NamespacedName, SecretPEMs, UpToDate, ActionAt, Updated, AllSecrets,
      IssueRead, CARead, Serves, Bundles, EncodePrivateKeyPEM, BundleAt, WebhookAt, DecodedIssue, DecodedCA;
    var s, n := ServiceAt(objects, c), HostAt(objects, c);
    ConfigIsManaged(objects, refs, ca, c);
    assert ConfigRead(d, objects, c, AllSecrets(objects, refs, ca));
    assert !NamedAs(SecretKey(s), ca);
    IssueKeyRead(objects, s, AllSecrets(objects, refs, ca));
    CANameRead(objects, ca, AllSecrets(objects, refs, ca));
    RotatorHasCA(o, d, now);
    RotatedKey(o, Decoded(d), draw, now, n);
    DecodedCAName(d);
    if UpToDate(objects, SecretKey(s), Step(o, d, draw, now)) {
      NewKeyChangesSecret(objects, s, Step(o, d, draw, now), n);
    }
  }

  lemma RotatorHasCA(o: Options, d: ChainData, now: Time)
    requires 0 <= now && ActionAt(o, Decoded(d), now) != Keep
    ensures CACertOrAll(o, Decoded(d), now)
  {
    hide ActionAt, Decoded;
    DecodedIsCoherent(d);
    if ActionAt(o, Decoded(d), now) != RotateAll {
      KeepsCA(o, Decoded(d), now);
    }
  }

  lemma DecodedCAName(d: ChainData)
    ensures Decoded(d).ca.name == d.ca.name
  {
  }

  /** With a service shared, any reconcile that rotates has the secret to write twice. */
  lemma SharedServiceClashes(objects: Objects, listed: seq<ObjectKey>, ca: ObjectKey, o: Options,
                             d: ChainData, draw: Draw, now: Time)
    requires var refs := KeysOf(listed);
             AllWellKinded(objects) && Sound(objects, refs, ca) && Describes(objects, refs, ca, d) && 0 <= now
    requires Shares(objects, listed)
    requires ActionAt(o, Decoded(d), now) != Keep && NewLeafKeys(d, draw)
    ensures Clash(objects, listed, ca, Step(o, d, draw, now))
  {
    hide ServiceAt, ConfigsIn, Sound, Describes, UpToDate, ActionAt, Updated, Decoded, NewLeafKeys, AllWellKinded, Shares;
    var refs := KeysOf(listed);
    var i, c, j, e := SharesTwice(objects, listed);
    var f := Config(listed[i], c);
    assert listed[i] in refs && f in Configs(objects, refs);
    RotationChangesSecret(objects, refs, ca, o, d, draw, now, f);
    assert KeyOf(objects, listed, ca, Backing(i, c)) == KeyOf(objects, listed, ca, Backing(j, e));
  }

  /**
   * Sharing is not supported: an undisturbed reconcile that rotates, be it
   * everything or the issued certificates alone, clashes if and only if two
   * configurations share a service or a webhook with configurations is listed
   * twice. One that rotates nothing clashes only then.
   */
  lemma RotationClashes(objects: Objects, listed: seq<ObjectKey>, ca: ObjectKey, o: Options,
                        d: ChainData, draw: Draw, now: Time)
    requires var refs := KeysOf(listed);
             AllWellKinded(objects) && Webhooks(listed, ca) && Sound(objects, refs, ca) && Describes(objects, refs, ca, d)
    requires 0 <= now && NewLeafKeys(d, draw)
    ensures Clash(objects, listed, ca, Step(o, d, draw, now)) ==> Shares(objects, listed)
    ensures ActionAt(o, Decoded(d), now) != Keep ==>
              (Clash(objects, listed, ca, Step(o, d, draw, now)) <==> Shares(objects, listed))
  {
    hide Sound, Describes, ActionAt, Updated, Decoded, NewLeafKeys, AllWellKinded, Shares, Clash, Webhooks;
    if Clash(objects, listed, ca, Step(o, d, draw, now)) {
      ClashShares(objects, listed, ca, Step(o, d, draw, now));
    }
    if Shares(objects, listed) && ActionAt(o, Decoded(d), now) != Keep {
      SharedServiceClashes(objects, listed, ca, o, d, draw, now);
    }
  }

  /** Without a rotation, what a reconcile computes does not depend on keys yet to be drawn. */
  lemma KeepDrawsNothing(o: Options, d: ChainData, draw: Draw, other: Draw, now: Time)
    requires ActionAt(o, Decoded(d), now) == Keep
    ensures Step(o, d, draw, now) == Step(o, d, other, now)
  {
    hide ActionAt, Decoded;
  }

  /** No issue is stored with a key that is still to be drawn. */
  predicate StoredKeysBelow(d: ChainData, next: KeyId) {
    forall n <- d.issued :: forall k <- KeysStored(d.issued[n].keyPEM) :: k < next
  }

  /** The RSA keys in the blocks of PEM data. */
  function KeysStored(pem: PEM): set<KeyId> {
    set i | 0 <= i < |pem| && pem[i].der.Pkcs1Der? :: pem[i].der.rsa
  }

  lemma KeyIsStored(k: KeyId)
    ensures k in KeysStored(EncodePrivateKeyPEM(k))
  {
    assert EncodePrivateKeyPEM(k)[0].der.rsa == k;
  }

  lemma DrawnLeavesAreNew(d: ChainData, draw: Draw, action: Action, from: KeyId, to: KeyId)
    requires StoredKeysBelow(d, from) && Drawn(draw, action, d.issued.Keys, from, to) && action != Keep
    ensures NewLeafKeys(d, draw)
  {
    forall n <- d.issued ensures d.issued[n].keyPEM != EncodePrivateKeyPEM(LeafKey(draw, n)) {
      KeyIsStored(LeafKey(draw, n));
      assert from <= draw.leaves[n];
    }
  }

  lemma IssueKeyRead(objects: Objects, s: Service, secrets: set<ObjectKey>)
    requires SecretKey(s) in secrets
    ensures IssueRead(objects, s, secrets).keyPEM
            == SecretPEMs(Lookup(objects, SecretKey(s)), TLS_PRIVATE_KEY_KEY, TLS_CERT_KEY).0
  {
  }
}
