/**
 * What the cluster gets, said of the objects themselves: of the webhooks in
 * their order, the entries of secrets, and the host names in certificates.
 */
module Delivery {
  import opened Common
  import opened Triple
  import opened ChainOptions
  import opened ChainModel
  import opened ChainFacts
  import opened ChainInvariant
  import opened ChainPrediction
  import opened ChainRepair
  import opened ChainRest
  import opened ChainRuns
  import opened ChainVerdicts
  import opened ApiServer
  import opened Configuration
  import opened Reading
  import opened Writing
  import opened Sharing
  import opened Reconciling
  import opened ReconcileRuns

  // ---- Webhooks and the services they name ----

  /** The i-th webhook of a managed object names a service, and no later one of its name does. */
  predicate Calls(objects: Objects, refs: set<ObjectKey>, k: ObjectKey, i: nat, s: Service) {
    && k in refs && k in objects && objects[k].content.WebhookConfiguration?
    && LastToServe(objects[k].content.webhooks, i) && objects[k].content.webhooks[i].service.value == s
  }

  lemma CallsInRange(objects: Objects, refs: set<ObjectKey>, k: ObjectKey, i: nat, s: Service)
    requires Calls(objects, refs, k, i, s)
    ensures k in refs && k in objects && objects[k].content.WebhookConfiguration? && i < |objects[k].content.webhooks|
  {
  }

  /** Each of these webhooks is a configuration, */
  lemma CallsAreConfigs(objects: Objects, refs: set<ObjectKey>, k: ObjectKey, i: nat, s: Service)
    requires Calls(objects, refs, k, i, s)
    ensures var c := Config(k, objects[k].content.webhooks[i].name);
            && c in Configs(objects, refs) && ServiceAt(objects, c) == s
            && WebhookAt(objects, c) == objects[k].content.webhooks[i]
            && HostAt(objects, c) == s.name + "." + s.namespace + ".svc"
  {
    hide ClientConfigs;
    ClientConfigsComplete(objects[k].content.webhooks);
    assert Config(k, objects[k].content.webhooks[i].name) in ConfigsIn(objects, k);
  }

  /** and every configuration is one of them. */
  lemma ConfigsAreCalls(objects: Objects, refs: set<ObjectKey>, c: Config) returns (i: nat)
    requires c in Configs(objects, refs)
    ensures Calls(objects, refs, c.key, i, ServiceAt(objects, c))
    ensures c.key in objects && objects[c.key].content.WebhookConfiguration? && i < |objects[c.key].content.webhooks|
    ensures objects[c.key].content.webhooks[i].name == c.name
  {
    hide ClientConfigs, LastToServe;
    ConfigKey(objects, refs, c);
    var webhooks := WebhooksOf(Lookup(objects, c.key));
    NoConfigsOfNone();
    ClientConfigsAt(webhooks);
    ClientConfigsComplete(webhooks);
    i := ClientConfigs(webhooks)[c.name];
  }

  lemma NoConfigsOfNone()
    ensures ClientConfigs([]) == map[]
  {
  }

  // ---- Host names ----

  /** The names under which a service can be called. */
  predicate NamedFor(s: Service, name: string, hostnames: seq<string>) {
    && name == s.name + "." + s.namespace + ".svc"
    && hostnames == [s.name, s.name + "." + s.namespace, s.name + "." + s.namespace + ".svc",
                     s.name + "." + s.namespace + ".svc.cluster.local"]
  }

  lemma IssueNames(objects: Objects, refs: set<ObjectKey>, ca: ObjectKey, d: ChainData, c: Config)
    requires Describes(objects, refs, ca, d) && c in Configs(objects, refs)
    ensures var s := ServiceAt(objects, c);
            var n := s.name + "." + s.namespace + ".svc";
            n == HostAt(objects, c) && n in d.issued && NamedFor(s, d.issued[n].name, d.issued[n].hostnames)
  {
    hide Configs, AllSecrets, ServiceAt, SecretPEMs, Lookup, CARead, Serves, Bundles, WebhookAt;
    assert ConfigRead(d, objects, c, AllSecrets(objects, refs, ca));
    var s := ServiceAt(objects, c);
    assert s.name + "." + s.namespace + ".svc" + ".cluster.local" == s.name + "." + s.namespace + ".svc.cluster.local";
  }

  // ---- Secrets ----

  /** A secret of some type, with two entries. */
  predicate HasSecret(objects: Objects, key: ObjectKey, secretType: SecretType, k: string, l: string) {
    && key in objects && objects[key].content.Secret? && objects[key].content.secretType == secretType
    && k in objects[key].content.data && l in objects[key].content.data
  }

  lemma ServiceSecretHeld(objects: Objects, s: Service, e: ChainData)
    requires AllWellKinded(objects) && UpToDate(objects, ObjectKey(SecretKind, s.namespace, s.name), e)
    requires NamespacedName(s.namespace, s.name) != e.ca.name && s.name + "." + s.namespace + ".svc" in e.issued
    ensures var key := ObjectKey(SecretKind, s.namespace, s.name);
            var i := e.issued[s.name + "." + s.namespace + ".svc"];
            && HasSecret(objects, key, TLS, "tls.key", "tls.crt")
            && objects[key].content.data["tls.key"] == i.keyPEM && objects[key].content.data["tls.crt"] == i.certPEM
  {
    hide NamespacedName;
    var key := ObjectKey(SecretKind, s.namespace, s.name);
    LookupWellKinded(objects, key);
    MappedSecret(key, Lookup(objects, key), e);
  }

  lemma CASecretHeld(objects: Objects, ca: ObjectKey, e: ChainData)
    requires AllWellKinded(objects) && UpToDate(objects, ca, e) && ca.kind == SecretKind
    requires ca.namespace + "/" + ca.name == e.ca.name
    ensures HasSecret(objects, ca, Opaque, "ca.key", "ca.crt")
    ensures objects[ca].content.data["ca.key"] == e.ca.keyPEM && objects[ca].content.data["ca.crt"] == e.ca.certPEM
  {
    LookupWellKinded(objects, ca);
    MappedSecret(ca, Lookup(objects, ca), e);
  }

  // ---- After a reconcile ----

  /**
   * After any reconcile that nobody disturbs, every webhook that names a service
   * carries the bundle that the issue of the service holds for it.
   */
  lemma HoldingDelivers(objects: Objects, refs: set<ObjectKey>, ca: ObjectKey, e: ChainData, k: ObjectKey, i: nat, s: Service)
    requires Holding(objects, refs, ca, e) && Calls(objects, refs, k, i, s)
    ensures var w := objects[k].content.webhooks[i];
            var n, b := s.name + "." + s.namespace + ".svc", CABundleName(KeyString(k), w.name);
            && n in e.issued && b in e.issued[n].caCertPEM && e.issued[n].caCertPEM[b] == w.caBundle
            && NamedFor(s, e.issued[n].name, e.issued[n].hostnames)
  {
    hide Configs, AllSecrets, ServiceAt, WebhookAt, Lookup, CARead, Serves, Bundles, Unambiguous, UpToDate, Strip, Calls,
      Coherent, NewCertificateIssue, SecretPEMs, KeyString, CABundleName, NamedFor, ServiceHostname;
    CallsInRange(objects, refs, k, i, s);
    CallsAreConfigs(objects, refs, k, i, s);
    var c := Config(k, objects[k].content.webhooks[i].name);
    assert ConfigRead(Strip(e), objects, c, AllSecrets(objects, refs, ca));
    IssueNames(objects, refs, ca, Strip(e), c);
    StripDomain(e);
    StripFacts(e, s.name + "." + s.namespace + ".svc");
  }

  /**
   * What a service and its webhooks need of each other. The secrets are there
   * and of their types; the bundle of the webhook ends with the CA certificate,
   * whose key is at hand; the key of the service belongs to its last
   * certificate; and all its certificates are server certificates, signed by
   * that CA, for all host names of the service.
   */
  ghost predicate Equipped(objects: Objects, ca: ObjectKey, k: ObjectKey, i: nat, s: Service)
    requires k in objects && objects[k].content.WebhookConfiguration? && i < |objects[k].content.webhooks|
  {
    var key := ObjectKey(SecretKind, s.namespace, s.name);
    && HasSecret(objects, ca, Opaque, "ca.key", "ca.crt")
    && HasSecret(objects, key, TLS, "tls.key", "tls.crt")
    && var roots := CertsIn(objects[ca].content.data["ca.crt"]);
       var certs := CertsIn(objects[key].content.data["tls.crt"]);
       var bundle := CertsIn(objects[k].content.webhooks[i].caBundle);
       && roots != [] && certs != [] && bundle != []
       && IsRoot(ca, Last(roots), objects[ca].content.data["ca.key"])
       && Last(bundle) == Last(roots)
       && ParsedKey(objects[key].content.data["tls.key"]) == Some(RsaKey(Last(certs).publicKey))
       && forall c <- certs :: IsServerCertificate(s, Last(roots), c)
  }

  predicate IsRoot(ca: ObjectKey, root: Certificate, key: PEM) {
    && root.isCA && root.subject == ca.namespace + "/" + ca.name && root.issuer == root.subject && root.issuerKey == root.publicKey
    && ParsedKey(key) == Some(RsaKey(root.publicKey))
  }

  predicate IsServerCertificate(s: Service, root: Certificate, c: Certificate) {
    !c.isCA && c.issuer == root.subject && c.issuerKey == root.publicKey && NamedFor(s, c.subject, c.dnsNames)
  }

  lemma CurrentRoot(o: Options, e: ChainData, prior: Time, ca: ObjectKey)
    requires Inv(o, e, prior) && e.ca.name == ca.namespace + "/" + ca.name
    ensures CACert(e).Some? && CertsIn(e.ca.certPEM) != [] && Last(CertsIn(e.ca.certPEM)) == CACert(e).value
    ensures IsRoot(ca, CACert(e).value, e.ca.keyPEM)
  {
    hide CertsIn, ParsedKey, CurrentIssue, BundlesUnexpired, CertsUnexpired, ParsesAsCerts;
  }

  lemma CurrentServer(o: Options, e: ChainData, prior: Time, s: Service, n: string, b: string)
    requires Inv(o, e, prior) && n in e.issued && NamedFor(s, e.issued[n].name, e.issued[n].hostnames)
    requires b in e.issued[n].caCertPEM
    ensures var i := e.issued[n];
            && CACert(e).Some?
            && CertsIn(i.certPEM) != [] && ParsedKey(i.keyPEM) == Some(RsaKey(Last(CertsIn(i.certPEM)).publicKey))
            && CertsIn(i.caCertPEM[b]) != [] && Last(CertsIn(i.caCertPEM[b])) == CACert(e).value
            && forall c <- CertsIn(i.certPEM) :: IsServerCertificate(s, CACert(e).value, c)
  {
    hide CertsIn, ParsedKey, BundlesUnexpired, CertsUnexpired, ParsesAsCerts, NamedFor, DecodedCA, Sorted;
    var i, root := e.issued[n], e.ca.keyPair.value;
    assert CurrentIssue(o, i, root, prior) && CoherentIssue(i);
    assert DecodedIssue(i).certs == i.certs && DecodedIssue(i).key == i.key;
    assert b in DecodedIssue(i).caCerts && i.caCerts[b] == CertsIn(i.caCertPEM[b]);
    forall c <- i.certs ensures IsServerCertificate(s, root.cert, c) {
      assert IssuedBy(o, c, root, i.name, i.hostnames, prior);
    }
  }

  lemma HeldCAName(objects: Objects, refs: set<ObjectKey>, ca: ObjectKey, e: ChainData)
    requires Holding(objects, refs, ca, e)
    ensures e.ca.name == ca.namespace + "/" + ca.name && ca.kind == SecretKind && UpToDate(objects, ca, e)
  {
    hide Configs, AllSecrets, ConfigRead, Serves, Bundles, Unambiguous, UpToDate, Coherent, SecretPEMs;
    CAIsManaged(objects, refs, ca);
    CANameRead(objects, ca, AllSecrets(objects, refs, ca));
  }

  lemma HeldSecret(objects: Objects, refs: set<ObjectKey>, ca: ObjectKey, e: ChainData, k: ObjectKey, i: nat, s: Service)
    requires Holding(objects, refs, ca, e) && Calls(objects, refs, k, i, s)
    ensures UpToDate(objects, ObjectKey(SecretKind, s.namespace, s.name), e)
    ensures NamespacedName(s.namespace, s.name) != e.ca.name
  {
    hide Configs, AllSecrets, ServiceAt, Calls, Describes, Agree, UpToDate, Coherent, NamespacedName;
    CallsInRange(objects, refs, k, i, s);
    CallsAreConfigs(objects, refs, k, i, s);
    var c := Config(k, objects[k].content.webhooks[i].name);
    ConfigIsManaged(objects, refs, ca, c);
    HeldCAName(objects, refs, ca, e);
    assert !NamedAs(SecretKey(ServiceAt(objects, c)), ca);
    assert NamespacedName(ca.namespace, ca.name) == e.ca.name by { NameOf(ca); }
  }

  lemma NameOf(key: ObjectKey)
    ensures NamespacedName(key.namespace, key.name) == key.namespace + "/" + key.name
  {
  }

  /** In a settled store every webhook that names a service, and the service, are equipped. */
  lemma SettledEquips(objects: Objects, refs: set<ObjectKey>, ca: ObjectKey, o: Options, e: ChainData, prior: Time,
                      k: ObjectKey, i: nat, s: Service)
    requires AllWellKinded(objects) && Settled(objects, refs, ca, o, e, prior) && Calls(objects, refs, k, i, s)
    ensures Equipped(objects, ca, k, i, s)
  {
    hide AllWellKinded, Holding, Inv, UpToDate, NamespacedName, KeyString, CABundleName, LastToServe, NamedFor, IsRoot,
      IsServerCertificate, CertsIn, ParsedKey, HasSecret;
    CallsInRange(objects, refs, k, i, s);
    var n, b := s.name + "." + s.namespace + ".svc", CABundleName(KeyString(k), objects[k].content.webhooks[i].name);
    HoldingDelivers(objects, refs, ca, e, k, i, s);
    HeldCAName(objects, refs, ca, e);
    HeldSecret(objects, refs, ca, e, k, i, s);
    CASecretHeld(objects, ca, e);
    ServiceSecretHeld(objects, s, e);
    CurrentRoot(o, e, prior, ca);
    CurrentServer(o, e, prior, s, n, b);
  }

  /** All webhooks that name a service are equipped, and so are the services. */
  ghost predicate AllEquipped(objects: Objects, refs: set<ObjectKey>, ca: ObjectKey) {
    forall k, i: nat, s: Service {:trigger Calls(objects, refs, k, i, s)} ::
      Calls(objects, refs, k, i, s) ==> Equipped(objects, ca, k, i, s)
  }

  lemma SettledEquipsAll(objects: Objects, refs: set<ObjectKey>, ca: ObjectKey, o: Options, e: ChainData, prior: Time)
    requires AllWellKinded(objects) && Settled(objects, refs, ca, o, e, prior)
    ensures AllEquipped(objects, refs, ca)
  {
    hide AllWellKinded, Settled, Calls, Equipped;
    forall k, i: nat, s: Service | Calls(objects, refs, k, i, s)
      ensures k in objects && objects[k].content.WebhookConfiguration? && i < |objects[k].content.webhooks|
      ensures Equipped(objects, ca, k, i, s)
    {
      CallsInRange(objects, refs, k, i, s);
      SettledEquips(objects, refs, ca, o, e, prior, k, i, s);
    }
  }

  // ---- Without a key ----

  /** A service secret of which no block of the key entry holds a private key, or which lacks an entry. */
  predicate Keyless(objects: Objects, s: Service) {
    var key := ObjectKey(SecretKind, s.namespace, s.name);
    key in objects && objects[key].content.Secret? ==>
      var data := objects[key].content.data;
      "tls.key" in data && "tls.crt" in data ==>
        forall j :: 0 <= j < |data["tls.key"]| ==> !HoldsKey(data["tls.key"][j])
  }

  /** Verified chains have a private key for every issue with a bundle. */
  lemma VerifiedKeys(d: ChainData, n: string, b: string, now: Time)
    requires Verifies(d, now) && n in d.issued && b in d.issued[n].caCertPEM
    ensures exists j :: 0 <= j < |d.issued[n].keyPEM| && HoldsKey(d.issued[n].keyPEM[j])
  {
    hide VerifiesAgainst, ParsesAsCerts, CertsIn, HoldsKey;
    assert TLSVerifies(d.issued[n].certPEM, d.issued[n].keyPEM, d.issued[n].caCertPEM[b], now);
    ParsedKeyIs(d.issued[n].keyPEM);
  }

  lemma KeylessRead(objects: Objects, s: Service, secrets: set<ObjectKey>)
    requires Keyless(objects, s)
    ensures ParsedKey(IssueRead(objects, s, secrets).keyPEM).None?
  {
    hide HoldsKey;
    ParsedKeyIs(IssueRead(objects, s, secrets).keyPEM);
  }

  /** A webhook whose service has no key makes the chain fail verification, and an update rotate everything. */
  lemma KeylessRotatesAll(objects: Objects, refs: set<ObjectKey>, ca: ObjectKey, o: Options, d: ChainData, now: Time,
                          k: ObjectKey, i: nat, s: Service)
    requires Describes(objects, refs, ca, d) && Calls(objects, refs, k, i, s) && Keyless(objects, s)
    ensures !Verifies(Decoded(d), now) && ActionAt(o, Decoded(d), now) == RotateAll
  {
    hide Configs, AllSecrets, ServiceAt, WebhookAt, Calls, Keyless, IssueRead, Serves, Bundles, CARead, Verifies, HoldsKey,
      FindRotationDeadlineForCA, FindRotationDeadlineForCerts;
    CallsInRange(objects, refs, k, i, s);
    CallsAreConfigs(objects, refs, k, i, s);
    var c := Config(k, objects[k].content.webhooks[i].name);
    var n := HostAt(objects, c);
    assert ConfigRead(d, objects, c, AllSecrets(objects, refs, ca));
    KeylessRead(objects, s, AllSecrets(objects, refs, ca));
    assert d.issued[n].keyPEM == IssueRead(objects, s, AllSecrets(objects, refs, ca)).keyPEM;
    if Verifies(Decoded(d), now) {
      VerifiedKeys(Decoded(d), n, BundleAt(c), now);
      ParsedKeyIs(d.issued[n].keyPEM);
    }
  }

  // ---- What strict verification looks at ----

  /** The entries of a secret, or nothing unless both are there. */
  function PairIn(objects: Objects, key: ObjectKey, k: string, l: string): (PEM, PEM) {
    if key in objects && objects[key].content.Secret? && k in objects[key].content.data && l in objects[key].content.data then
      (objects[key].content.data[k], objects[key].content.data[l])
    else ([], [])
  }

  /** The last certificate of the CA secret, if an RSA key and well-formed certificates are there. */
  function RootIn(objects: Objects, ca: ObjectKey): Option<Certificate> {
    var (key, certs) := PairIn(objects, ca, "ca.key", "ca.crt");
    if ParsedKey(key).Some? && ParsedKey(key).value.RsaKey? && ParsesAsCerts(certs) then Some(Last(CertsIn(certs))) else None
  }

  /** A webhook trusts its service: its bundle ends with the stored CA certificate, and the service's pair verifies against it. */
  ghost predicate Trusts(objects: Objects, ca: ObjectKey, k: ObjectKey, i: nat, s: Service, now: Time)
    requires k in objects && objects[k].content.WebhookConfiguration? && i < |objects[k].content.webhooks|
  {
    var service, bundle := ObjectKey(SecretKind, s.namespace, s.name), objects[k].content.webhooks[i].caBundle;
    var (key, certs) := PairIn(objects, service, "tls.key", "tls.crt");
    && service in objects
    && LastCert(CertsIn(bundle)) == RootIn(objects, ca)
    && TLSVerdict(certs, key, bundle, now) == Trusted
  }

  ghost predicate AllTrust(objects: Objects, refs: set<ObjectKey>, ca: ObjectKey, now: Time) {
    && refs <= objects.Keys && ca in objects
    && forall k, i: nat, s: Service {:trigger Calls(objects, refs, k, i, s)} ::
         Calls(objects, refs, k, i, s) ==> Trusts(objects, ca, k, i, s, now)
  }

  lemma RootRead(objects: Objects, refs: set<ObjectKey>, ca: ObjectKey, d: ChainData)
    requires Describes(objects, refs, ca, d)
    ensures CACert(Decoded(d)) == RootIn(objects, ca)
  {
    hide Configs, ConfigRead, Serves, Bundles, CertsIn, ParsedKey;
    CAIsManaged(objects, refs, ca);
  }

  /** The pair and the bundle of a webhook, as they were read. */
  lemma CallRead(objects: Objects, refs: set<ObjectKey>, ca: ObjectKey, d: ChainData, k: ObjectKey, i: nat, s: Service)
    requires Describes(objects, refs, ca, d) && Calls(objects, refs, k, i, s)
    ensures var w := objects[k].content.webhooks[i];
            var n, b := s.name + "." + s.namespace + ".svc", BundleAt(Config(k, w.name));
            && n in d.issued && b in d.issued[n].caCertPEM && d.issued[n].caCertPEM[b] == w.caBundle
            && (d.issued[n].keyPEM, d.issued[n].certPEM)
               == PairIn(objects, ObjectKey(SecretKind, s.namespace, s.name), "tls.key", "tls.crt")
  {
    hide Configs, AllSecrets, ServiceAt, WebhookAt, BundleAt, Calls, Serves, Bundles, CARead;
    CallsInRange(objects, refs, k, i, s);
    CallsAreConfigs(objects, refs, k, i, s);
    var c := Config(k, objects[k].content.webhooks[i].name);
    assert ConfigRead(d, objects, c, AllSecrets(objects, refs, ca));
    ConfigIsManaged(objects, refs, ca, c);
    IssuePairRead(objects, s, AllSecrets(objects, refs, ca));
  }

  lemma IssuePairRead(objects: Objects, s: Service, secrets: set<ObjectKey>)
    requires SecretKey(s) in secrets
    ensures (IssueRead(objects, s, secrets).keyPEM, IssueRead(objects, s, secrets).certPEM)
            == PairIn(objects, ObjectKey(SecretKind, s.namespace, s.name), "tls.key", "tls.crt")
  {
  }

  /** One bundle of the chain verifies exactly if the webhook trusts its service. */
  lemma CallVerdict(objects: Objects, refs: set<ObjectKey>, ca: ObjectKey, d: ChainData, now: Time, k: ObjectKey, i: nat, s: Service)
    requires Describes(objects, refs, ca, d) && Calls(objects, refs, k, i, s)
    requires ObjectKey(SecretKind, s.namespace, s.name) in objects
    ensures var n, b := s.name + "." + s.namespace + ".svc", BundleAt(Config(k, objects[k].content.webhooks[i].name));
            && n in Decoded(d).issued && b in Decoded(d).issued[n].caCertPEM
            && (BundleVerdict(Decoded(d), n, b, now) == Trusted <==> Trusts(objects, ca, k, i, s, now))
  {
    hide Describes, Calls, BundleAt, PairIn, RootIn, TLSVerdict, CertsIn, DecodedCA;
    CallsInRange(objects, refs, k, i, s);
    CallRead(objects, refs, ca, d, k, i, s);
    RootRead(objects, refs, ca, d);
  }

  /** Every bundle of the chain belongs to such a webhook. */
  lemma BundleIsCall(objects: Objects, refs: set<ObjectKey>, ca: ObjectKey, d: ChainData, n: string, b: string)
    returns (k: ObjectKey, i: nat, s: Service)
    requires Describes(objects, refs, ca, d) && n in d.issued && b in d.issued[n].caCertPEM
    ensures Calls(objects, refs, k, i, s) && n == s.name + "." + s.namespace + ".svc"
    ensures k in objects && objects[k].content.WebhookConfiguration? && i < |objects[k].content.webhooks|
    ensures b == BundleAt(Config(k, objects[k].content.webhooks[i].name))
  {
    hide Configs, ServiceAt, BundleAt, ConfigRead, Calls;
    assert Bundles(objects, Configs(objects, refs), n, b);
    var c :| c in Configs(objects, refs) && HostAt(objects, c) == n && BundleAt(c) == b;
    k, s := c.key, ServiceAt(objects, c);
    i := ConfigsAreCalls(objects, refs, c);
  }

  lemma ManagedThere(objects: Objects, refs: set<ObjectKey>, ca: ObjectKey)
    ensures Managed(objects, refs, ca) <= objects.Keys <==>
              && refs <= objects.Keys && ca in objects
              && forall k, i: nat, s: Service {:trigger Calls(objects, refs, k, i, s)} ::
                   Calls(objects, refs, k, i, s) ==> ObjectKey(SecretKind, s.namespace, s.name) in objects
  {
    hide Configs, ServiceAt, Calls;
    if Managed(objects, refs, ca) <= objects.Keys {
      CAIsManaged(objects, refs, ca);
      forall k, i: nat, s: Service | Calls(objects, refs, k, i, s) ensures ObjectKey(SecretKind, s.namespace, s.name) in objects {
        CallsInRange(objects, refs, k, i, s);
        CallsAreConfigs(objects, refs, k, i, s);
        ConfigIsManaged(objects, refs, ca, Config(k, objects[k].content.webhooks[i].name));
      }
    }
    forall c <- Configs(objects, refs)
      ensures exists i: nat :: Calls(objects, refs, c.key, i, ServiceAt(objects, c))
    {
      var i := ConfigsAreCalls(objects, refs, c);
      assert Calls(objects, refs, c.key, i, ServiceAt(objects, c));
    }
  }

  /** Strict verification succeeds exactly if every object is there and every webhook trusts its service. */
  lemma VerifiedMeans(objects: Objects, refs: set<ObjectKey>, ca: ObjectKey, d: ChainData, now: Time)
    requires Describes(objects, refs, ca, d)
    ensures StrictlyVerified(objects, refs, ca, d, now) <==> AllTrust(objects, refs, ca, now)
  {
    hide Describes, Calls, Managed, BundleAt, Trusts, BundleVerdict, Decoded, Verifies, TLSVerifies;
    TrustNeedsAll(objects, refs, ca, now);
    ManagedThere(objects, refs, ca);
    VerifiesByBundle(Decoded(d), now);
    DecodedBundleNames(d);
    if Managed(objects, refs, ca) <= objects.Keys {
      forall k, i: nat, s: Service | Calls(objects, refs, k, i, s)
        ensures k in objects && objects[k].content.WebhookConfiguration? && i < |objects[k].content.webhooks|
        ensures Verifies(Decoded(d), now) ==> Trusts(objects, ca, k, i, s, now)
      {
        CallsInRange(objects, refs, k, i, s);
        CallVerdict(objects, refs, ca, d, now, k, i, s);
      }
      if AllTrust(objects, refs, ca, now) {
        forall n <- d.issued, b <- d.issued[n].caCertPEM
          ensures n in Decoded(d).issued && b in Decoded(d).issued[n].caCertPEM
          ensures BundleVerdict(Decoded(d), n, b, now) == Trusted
        {
          var k, i, s := BundleIsCall(objects, refs, ca, d, n, b);
          CallVerdict(objects, refs, ca, d, now, k, i, s);
        }
      }
    }
  }

  lemma TrustNeedsAll(objects: Objects, refs: set<ObjectKey>, ca: ObjectKey, now: Time)
    ensures AllTrust(objects, refs, ca, now) ==> Managed(objects, refs, ca) <= objects.Keys
  {
    hide Calls, Managed, PairIn, RootIn, TLSVerdict, CertsIn;
    ManagedThere(objects, refs, ca);
    forall k, i: nat, s: Service | Calls(objects, refs, k, i, s)
      ensures k in objects && objects[k].content.WebhookConfiguration? && i < |objects[k].content.webhooks|
    {
      CallsInRange(objects, refs, k, i, s);
    }
  }

  lemma DecodedBundleNames(d: ChainData)
    ensures Decoded(d).issued.Keys == d.issued.Keys
    ensures forall n <- d.issued :: Decoded(d).issued[n].caCertPEM.Keys == d.issued[n].caCertPEM.Keys
  {
  }

  lemma VerifiesByBundle(d: ChainData, now: Time)
    ensures Verifies(d, now) <==> forall n <- d.issued, b <- d.issued[n].caCertPEM :: BundleVerdict(d, n, b, now) == Trusted
  {
    hide TLSVerifies, BundleVerdict;
    forall n <- d.issued, b <- d.issued[n].caCertPEM
      ensures BundleVerdict(d, n, b, now) == Trusted <==>
                && LastCert(Bundle(d.issued[n], b)) == CACert(d)
                && TLSVerifies(d.issued[n].certPEM, d.issued[n].keyPEM, d.issued[n].caCertPEM[b], now)
    {
      BundleTrusted(d, n, b, now);
    }
  }

  // ---- After any reconcile ----

  /** Every webhook that names a service carries the bundle of its issue, unless that one is empty. */
  ghost predicate AllDelivered(objects: Objects, refs: set<ObjectKey>, e: ChainData) {
    forall k, i: nat, s: Service {:trigger Calls(objects, refs, k, i, s)} :: Calls(objects, refs, k, i, s) ==>
      Delivered(e, k, objects[k].content.webhooks[i], s)
  }

  predicate Delivered(e: ChainData, k: ObjectKey, w: Webhook, s: Service) {
    var n, b := s.name + "." + s.namespace + ".svc", CABundleName(KeyString(k), w.name);
    && n in e.issued && b in e.issued[n].caCertPEM
    && (e.issued[n].caCertPEM[b] == [] || e.issued[n].caCertPEM[b] == w.caBundle)
  }

  /** Writing leaves names and services of webhooks alone, and so which of them count. */
  lemma WrittenCalls(objects: Objects, next: Objects, version: nat, refs: set<ObjectKey>, e: ChainData, k: ObjectKey, i: nat, s: Service)
    requires WrittenAt(objects, next, version, k, e) && k.kind != SecretKind && Calls(next, refs, k, i, s)
    ensures Calls(objects, refs, k, i, s) && i < |objects[k].content.webhooks| && i < |next[k].content.webhooks|
    ensures next[k].content.webhooks[i] == MappedWebhooks(k, objects[k].content.webhooks, e)[i]
    ensures objects[k].content.webhooks[i].name == next[k].content.webhooks[i].name
  {
    hide WrittenAt, UpToDate, MappedWebhooks, InitObject;
    WrittenConfigs(objects, next, version, k, e);
    MappedWebhooksDifferOnly(k, WebhooksOf(Lookup(objects, k)), e);
    NoneToWrite(k);
  }

  lemma NoneToWrite(k: ObjectKey)
    requires k.kind != SecretKind
    ensures WebhooksOf(InitObject(k)) == []
  {
  }

  lemma ReconcileDelivers(objects: Objects, next: Objects, version: nat, refs: set<ObjectKey>, ca: ObjectKey,
                          o: Options, d: ChainData, draw: Draw, now: Time)
    requires Sound(objects, refs, ca) && Describes(objects, refs, ca, d)
    requires Written(objects, next, version, Managed(objects, refs, ca), Step(o, d, draw, now))
    ensures AllDelivered(next, refs, Step(o, d, draw, now))
  {
    hide Describes, Step, Calls, Delivered, Configs, AllSecrets, WrittenAt, Unambiguous;
    var e := Step(o, d, draw, now);
    forall k, i: nat, s: Service | Calls(next, refs, k, i, s)
      ensures k in next && next[k].content.WebhookConfiguration? && i < |next[k].content.webhooks|
      ensures Delivered(e, k, next[k].content.webhooks[i], s)
    {
      CallsInRange(next, refs, k, i, s);
      assert k in Managed(objects, refs, ca);
      WrittenCalls(objects, next, version, refs, e, k, i, s);
      CallDelivered(objects, refs, ca, o, d, draw, now, k, i, s);
    }
  }

  lemma CallDelivered(objects: Objects, refs: set<ObjectKey>, ca: ObjectKey, o: Options, d: ChainData, draw: Draw, now: Time,
                      k: ObjectKey, i: nat, s: Service)
    requires Describes(objects, refs, ca, d) && Calls(objects, refs, k, i, s)
    ensures i < |objects[k].content.webhooks|
    ensures Delivered(Step(o, d, draw, now), k, MappedWebhooks(k, objects[k].content.webhooks, Step(o, d, draw, now))[i], s)
  {
    hide Describes, Step, MappedWebhooks, KeyString, CABundleName;
    var v, e := objects[k].content.webhooks, Step(o, d, draw, now);
    CallRead(objects, refs, ca, d, k, i, s);
    StepKeepsTrust(o, d, draw, now);
    MappedBundle(k, v, i, e);
    MappedWebhooksDifferOnly(k, v, e);
  }

  /** With valid options no bundle is left empty. */
  lemma NothingUndelivered(o: Options, d: ChainData, draw: Draw, now: Time)
    requires Workable(o) && MeasurableLists(o, Decoded(d)) && 0 <= now
    ensures NoEmptyBundle(Step(o, d, draw, now))
  {
    hide NoEmptyBundle, Coherent, LastsUnexpired, Workable, MeasurableLists, Decoded, Updated;
    DecodedIsCoherent(d);
    UpdateIsCoherent(o, Decoded(d), draw, now);
    UpdatedMatches(o, d, draw, now);
  }
}
