/**
 * Writing chain data back to Kubernetes objects, and what reading them again
 * then gives.
 */
module Writing {
  import opened Common
  import opened Triple
  import opened ChainModel
  import opened ApiServer
  import opened Configuration
  import opened Reading

  // ---- One object ----

  /** The CA bundle that the chain holds for a webhook, empty if it holds none. */
  function BundleFor(key: ObjectKey, w: Webhook, d: ChainData): PEM {
    if w.service.None? then []
    else
      var n, b := ServiceHostname(w.service.value), CABundleName(KeyString(key), w.name);
      if n in d.issued && b in d.issued[n].caCertPEM then d.issued[n].caCertPEM[b] else []
  }

  function MappedWebhook(key: ObjectKey, webhooks: seq<Webhook>, i: nat, d: ChainData): Webhook
    requires i < |webhooks|
  {
    var w, at := webhooks[i], ClientConfigs(webhooks);
    var bundle := BundleFor(key, w, d);
    if w.name in at && at[w.name] == i && bundle != [] then w.(caBundle := bundle) else w
  }

  function MappedWebhooks(key: ObjectKey, webhooks: seq<Webhook>, d: ChainData): seq<Webhook> {
    seq(|webhooks|, i requires 0 <= i < |webhooks| => MappedWebhook(key, webhooks, i, d))
  }

  function MappedCASecret(data: map<string, PEM>, d: ChainData): Content {
    Secret(Opaque, data[CA_PRIVATE_KEY_KEY := d.ca.keyPEM][CA_CERT_KEY := d.ca.certPEM])
  }

  function MappedServiceSecret(data: map<string, PEM>, i: CertificateIssue): Content {
    Secret(TLS, data[TLS_PRIVATE_KEY_KEY := i.keyPEM][TLS_CERT_KEY := i.certPEM])
  }

  /** An object with the chain data mapped into it. */
  function FromChain(key: ObjectKey, r: Resource, d: ChainData): Resource {
    match r.content
    case WebhookConfiguration(webhooks) => r.(content := WebhookConfiguration(MappedWebhooks(key, webhooks, d)))
    case Secret(_, data) =>
      var n := ServiceHostname(Service(key.namespace, key.name));
      if NamespacedName(key.namespace, key.name) == d.ca.name then r.(content := MappedCASecret(data, d))
      else if n in d.issued then r.(content := MappedServiceSecret(data, d.issued[n]))
      else r
  }

  // ---- What mapping leaves alone ----

  /** Two entries are there, and all others are as they were. */
  predicate OnlyEntries(before: map<string, PEM>, after: map<string, PEM>, k: string, l: string) {
    && after.Keys == before.Keys + {k, l}
    && forall e <- before :: e != k && e != l ==> after[e] == before[e]
  }

  /**
   * One object differs from another at most in what the manager is there for:
   * the bundles of webhooks that name a service, or the type and two entries of
   * a secret.
   */
  predicate DiffersOnly(key: ObjectKey, caName: string, before: Resource, after: Resource) {
    && after.annotations == before.annotations && after.rest == before.rest
    && match before.content
       case WebhookConfiguration(v) =>
         && after.content.WebhookConfiguration?
         && var w := after.content.webhooks;
            && |w| == |v|
            && forall j :: 0 <= j < |v| ==> w[j] == v[j].(caBundle := w[j].caBundle) && (w[j] == v[j] || LastToServe(v, j))
       case Secret(_, data) =>
         && after.content.Secret?
         && if key.namespace + "/" + key.name == caName then
              after.content.secretType == Opaque && OnlyEntries(data, after.content.data, "ca.key", "ca.crt")
            else
              || after.content == before.content
              || (after.content.secretType == TLS && OnlyEntries(data, after.content.data, "tls.key", "tls.crt"))
  }

  lemma MappedWebhooksDifferOnly(key: ObjectKey, v: seq<Webhook>, d: ChainData)
    ensures var w := MappedWebhooks(key, v, d);
            && |w| == |v|
            && forall j :: 0 <= j < |v| ==> w[j] == v[j].(caBundle := w[j].caBundle) && (w[j] == v[j] || LastToServe(v, j))
  {
    hide KeyString, CABundleName, ServiceHostname, ClientConfigs;
    ClientConfigsComplete(v);
  }

  /** Mapping chain data into an object touches nothing else, and keeps its version. */
  lemma FromChainDiffersOnly(key: ObjectKey, r: Resource, d: ChainData)
    ensures DiffersOnly(key, d.ca.name, r, FromChain(key, r, d)) && FromChain(key, r, d).version == r.version
  {
    hide MappedWebhooks, ServiceHostname, LastToServe;
    match r.content
    case WebhookConfiguration(webhooks) => MappedWebhooksDifferOnly(key, webhooks, d);
    case Secret(_, _) =>
  }

  /** What it puts there: the bundle of the issue of its service into every webhook that counts, unless it is empty, */
  lemma MappedBundle(key: ObjectKey, v: seq<Webhook>, i: nat, d: ChainData)
    requires LastToServe(v, i)
    ensures var s := v[i].service.value;
            var n, b := s.name + "." + s.namespace + ".svc", CABundleName(KeyString(key), v[i].name);
            MappedWebhooks(key, v, d)[i].caBundle
            == if n in d.issued && b in d.issued[n].caCertPEM && d.issued[n].caCertPEM[b] != [] then d.issued[n].caCertPEM[b]
               else v[i].caBundle
  {
    hide KeyString, CABundleName, ClientConfigs;
    ClientConfigsComplete(v);
  }

  /** and key and certificates into a secret. */
  lemma MappedSecret(key: ObjectKey, r: Resource, d: ChainData)
    requires r.content.Secret?
    ensures var n := key.name + "." + key.namespace + ".svc";
            var after := FromChain(key, r, d).content.data;
            if key.namespace + "/" + key.name == d.ca.name then
              "ca.key" in after && after["ca.key"] == d.ca.keyPEM && "ca.crt" in after && after["ca.crt"] == d.ca.certPEM
            else if n in d.issued then
              && "tls.key" in after && after["tls.key"] == d.issued[n].keyPEM
              && "tls.crt" in after && after["tls.crt"] == d.issued[n].certPEM
            else after == r.content.data
  {
  }

  /** The chain data have nothing to change about an object. */
  predicate UpToDate(objects: Objects, key: ObjectKey, d: ChainData) {
    FromChain(key, Lookup(objects, key), d) == Lookup(objects, key)
  }

  lemma MappedWebhooksAlike(key: ObjectKey, webhooks: seq<Webhook>, d: ChainData)
    ensures ClientConfigs(MappedWebhooks(key, webhooks, d)) == ClientConfigs(webhooks)
  {
    ClientConfigsOf(webhooks, MappedWebhooks(key, webhooks, d));
  }

  /** Mapping the same data once more changes nothing. */
  lemma FromChainIsIdempotent(key: ObjectKey, r: Resource, d: ChainData)
    ensures FromChain(key, FromChain(key, r, d), d) == FromChain(key, r, d)
  {
    match r.content
    case WebhookConfiguration(webhooks) =>
      var mapped := MappedWebhooks(key, webhooks, d);
      MappedWebhooksAlike(key, webhooks, d);
      assert MappedWebhooks(key, mapped, d) == mapped;
    case Secret(_, data) =>
      MappedSecretsIdempotent(data, d);
      var n := ServiceHostname(Service(key.namespace, key.name));
      if n in d.issued {
        MappedServiceSecretIdempotent(data, d.issued[n]);
      }
  }

  lemma MappedSecretsIdempotent(data: map<string, PEM>, d: ChainData)
    ensures MappedCASecret(MappedCASecret(data, d).data, d) == MappedCASecret(data, d)
  {
    var mapped := MappedCASecret(data, d).data;
    assert mapped[CA_PRIVATE_KEY_KEY := d.ca.keyPEM][CA_CERT_KEY := d.ca.certPEM] == mapped;
  }

  lemma MappedServiceSecretIdempotent(data: map<string, PEM>, i: CertificateIssue)
    ensures MappedServiceSecret(MappedServiceSecret(data, i).data, i) == MappedServiceSecret(data, i)
  {
    var mapped := MappedServiceSecret(data, i).data;
    assert mapped[TLS_PRIVATE_KEY_KEY := i.keyPEM][TLS_CERT_KEY := i.certPEM] == mapped;
  }

  /** A webhook object without client configurations is left alone. */
  lemma NoConfigsUpToDate(objects: Objects, key: ObjectKey, d: ChainData)
    requires ConfigsIn(objects, key) == {} && WellKinded(key, Lookup(objects, key)) && key.kind != SecretKind
    ensures UpToDate(objects, key, d)
  {
    var webhooks := WebhooksOf(Lookup(objects, key));
    assert forall c :: c in ClientConfigs(webhooks) ==> Config(key, c) in ConfigsIn(objects, key);
    assert MappedWebhooks(key, webhooks, d) == webhooks;
  }

  // ---- All objects ----

  ghost predicate WrittenAt(objects: Objects, next: Objects, version: nat, key: ObjectKey, d: ChainData) {
    if UpToDate(objects, key, d) then
      (key in next <==> key in objects) && (key in objects ==> next[key] == objects[key])
    else
      && key in next && next[key].version > version
      && next[key] == FromChain(key, Lookup(objects, key), d).(version := next[key].version)
  }

  /** Exactly the objects under the given keys that are not up to date were replaced or created. */
  ghost predicate Written(objects: Objects, next: Objects, version: nat, keys: set<ObjectKey>, d: ChainData) {
    && (forall k <- keys :: WrittenAt(objects, next, version, k, d))
    && forall k :: k !in keys ==> (k in next <==> k in objects) && (k in objects ==> next[k] == objects[k])
  }

  /**
   * Writing one object undisturbed: refused if the object was changed since it
   * was read, and left out if there is nothing to change.
   */
  function WriteOne(s: Store, key: ObjectKey, asRead: Resource, d: ChainData): (bool, Store) {
    var current := if key in s.objects then s.objects[key] else asRead;
    var mapped := FromChain(key, current, d);
    if mapped == asRead then (true, s)
    else if asRead != current || (key !in s.objects && asRead.version != 0) then (false, s)
    else (true, Stored(s, key, mapped))
  }

  lemma FromChainKeepsVersion(key: ObjectKey, r: Resource, d: ChainData)
    ensures FromChain(key, r, d).version == r.version && (WellKinded(key, r) <==> WellKinded(key, FromChain(key, r, d)))
  {
  }

  /** The first write of an object succeeds, and so does any other unless the first one changed the object. */
  lemma WriteNext(objects: Objects, s: Store, version: nat, keys: set<ObjectKey>, key: ObjectKey, d: ChainData)
    requires Written(objects, s.objects, version, keys, d) && version <= s.lastVersion
    requires forall k <- objects :: 0 < objects[k].version <= version
    ensures var (ok, t) := WriteOne(s, key, Lookup(objects, key), d);
            && (ok <==> key !in keys || UpToDate(objects, key, d))
            && (ok ==> Written(objects, t.objects, version, keys + {key}, d))
            && s.lastVersion <= t.lastVersion
            && (UpToDate(objects, key, d) ==> t == s)
  {
    hide FromChain, UpToDate;
    var asRead := Lookup(objects, key);
    var current := if key in s.objects then s.objects[key] else asRead;
    FromChainKeepsVersion(key, current, d);
    FromChainKeepsVersion(key, asRead, d);
    assert UpToDate(objects, key, d) <==> FromChain(key, asRead, d) == asRead by {
      UpToDateMeans(objects, key, d);
    }
    assert key in keys ==> WrittenAt(objects, s.objects, version, key, d);
  }

  lemma UpToDateMeans(objects: Objects, key: ObjectKey, d: ChainData)
    ensures UpToDate(objects, key, d) <==> FromChain(key, Lookup(objects, key), d) == Lookup(objects, key)
  {
  }

  lemma WrittenLookup(objects: Objects, next: Objects, version: nat, key: ObjectKey, d: ChainData)
    requires WrittenAt(objects, next, version, key, d)
    ensures Lookup(next, key).content == FromChain(key, Lookup(objects, key), d).content
    ensures UpToDate(next, key, d)
  {
    hide InitObject, MappedWebhooks, MappedCASecret, MappedServiceSecret, ServiceHostname, NamespacedName;
    FromChainIsIdempotent(key, Lookup(objects, key), d);
  }

  lemma UpToDateWritesNothing(objects: Objects, next: Objects, version: nat, keys: set<ObjectKey>, d: ChainData)
    requires Written(objects, next, version, keys, d) && forall k <- keys :: UpToDate(objects, k, d)
    ensures next == objects
  {
    hide UpToDate;
    forall k ensures (k in next <==> k in objects) && (k in objects ==> next[k] == objects[k]) {
      if k in keys {
        assert WrittenAt(objects, next, version, k, d);
      }
    }
  }

  // ---- Reading again ----

  /** Chain data as they are read: without decoded parts. */
  function StripIssue(i: CertificateIssue): CertificateIssue {
    i.(key := None, certs := [], caCerts := map[])
  }

  function Strip(d: ChainData): ChainData {
    ChainData(map n <- d.issued :: StripIssue(d.issued[n]), d.ca.(keyPair := None))
  }

  lemma DecodedStrip(d: ChainData)
    ensures Decoded(Strip(d)) == Decoded(d)
  {
    forall n <- d.issued ensures DecodedIssue(StripIssue(d.issued[n])) == DecodedIssue(d.issued[n]) {
    }
    assert Decoded(Strip(d)).issued == Decoded(d).issued;
  }

  /** Same issues, same bundles, under the same names. */
  predicate Matches(d: ChainData, e: ChainData) {
    && d.ca.name == e.ca.name
    && d.issued.Keys == e.issued.Keys
    && forall n <- d.issued ::
         && d.issued[n].name == e.issued[n].name
         && d.issued[n].hostnames == e.issued[n].hostnames
         && d.issued[n].caCertPEM.Keys == e.issued[n].caCertPEM.Keys
  }

  /** An empty bundle would not be written. */
  predicate NoEmptyBundle(d: ChainData) {
    forall n <- d.issued, b <- d.issued[n].caCertPEM :: d.issued[n].caCertPEM[b] != []
  }

  lemma WrittenConfigs(objects: Objects, next: Objects, version: nat, key: ObjectKey, d: ChainData)
    requires WrittenAt(objects, next, version, key, d)
    ensures ConfigsIn(next, key) == ConfigsIn(objects, key)
    ensures WebhooksOf(Lookup(next, key)) == MappedWebhooks(key, WebhooksOf(Lookup(objects, key)), d)
  {
    hide UpToDate, WrittenAt, MappedWebhooks, ClientConfigs, Lookup, ServiceHostname, NamespacedName;
    WrittenLookup(objects, next, version, key, d);
    MappedWebhooksAlike(key, WebhooksOf(Lookup(objects, key)), d);
    NoWebhooks(key, d);
  }

  lemma NoWebhooks(key: ObjectKey, d: ChainData)
    ensures MappedWebhooks(key, [], d) == []
  {
  }

  lemma WrittenWebhook(objects: Objects, next: Objects, version: nat, c: Config, d: ChainData)
    requires WrittenAt(objects, next, version, c.key, d) && c in ConfigsIn(objects, c.key)
    ensures ServiceAt(next, c) == ServiceAt(objects, c) && HostAt(next, c) == HostAt(objects, c)
    ensures HostAt(objects, c) in d.issued && BundleAt(c) in d.issued[HostAt(objects, c)].caCertPEM
            && d.issued[HostAt(objects, c)].caCertPEM[BundleAt(c)] != [] ==>
              WebhookAt(next, c).caBundle == d.issued[HostAt(objects, c)].caCertPEM[BundleAt(c)]
  {
    hide UpToDate, WrittenAt, ClientConfigs, Lookup, KeyString, CABundleName, ServiceHostname;
    WrittenConfigs(objects, next, version, c.key, d);
    var webhooks := WebhooksOf(Lookup(objects, c.key));
    MappedWebhooksAlike(c.key, webhooks, d);
    ClientConfigsAt(webhooks);
    ClientConfigsAt(MappedWebhooks(c.key, webhooks, d));
  }

  predicate AllWellKinded(objects: Objects) {
    forall k <- objects :: WellKinded(k, objects[k])
  }

  /** Everything that reading leads to. */
  ghost function Managed(objects: Objects, refs: set<ObjectKey>, ca: ObjectKey): set<ObjectKey> {
    refs + AllSecrets(objects, refs, ca)
  }

  lemma WrittenSecret(objects: Objects, next: Objects, version: nat, s: Service, d: ChainData)
    requires AllWellKinded(objects) && WrittenAt(objects, next, version, SecretKey(s), d)
    requires NamespacedName(s.namespace, s.name) != d.ca.name && ServiceHostname(s) in d.issued
    ensures SecretPEMs(Lookup(next, SecretKey(s)), TLS_PRIVATE_KEY_KEY, TLS_CERT_KEY)
            == (d.issued[ServiceHostname(s)].keyPEM, d.issued[ServiceHostname(s)].certPEM)
  {
    hide WrittenAt, UpToDate, ServiceHostname, NamespacedName;
    WrittenLookup(objects, next, version, SecretKey(s), d);
  }

  lemma WrittenCASecret(objects: Objects, next: Objects, version: nat, ca: ObjectKey, d: ChainData)
    requires AllWellKinded(objects) && WrittenAt(objects, next, version, ca, d)
    requires NamespacedName(ca.namespace, ca.name) == d.ca.name && ca.kind == SecretKind
    ensures SecretPEMs(Lookup(next, ca), CA_PRIVATE_KEY_KEY, CA_CERT_KEY) == (d.ca.keyPEM, d.ca.certPEM)
  {
    hide WrittenAt, UpToDate, ServiceHostname, NamespacedName;
    WrittenLookup(objects, next, version, ca, d);
  }

  /** Chain data read from some objects, changed, and written back to them. */
  ghost predicate WrittenBack(objects: Objects, next: Objects, version: nat, refs: set<ObjectKey>, ca: ObjectKey,
                              d: ChainData, e: ChainData) {
    && AllWellKinded(objects)
    && Sound(objects, refs, ca) && Describes(objects, refs, ca, d)
    && Matches(d, e) && NoEmptyBundle(e)
    && Written(objects, next, version, Managed(objects, refs, ca), e)
  }

  lemma SameConfigs(objects: Objects, next: Objects, version: nat, refs: set<ObjectKey>, ca: ObjectKey,
                    d: ChainData, e: ChainData)
    requires WrittenBack(objects, next, version, refs, ca, d, e)
    ensures Configs(next, refs) == Configs(objects, refs)
  {
    hide Sound, Describes, ConfigsIn, WrittenAt, AllSecrets;
    forall k <- refs ensures ConfigsIn(next, k) == ConfigsIn(objects, k) {
      WrittenConfigs(objects, next, version, k, e);
    }
  }

  lemma ConfigIsManaged(objects: Objects, refs: set<ObjectKey>, ca: ObjectKey, c: Config)
    requires c in Configs(objects, refs)
    ensures c in ConfigsIn(objects, c.key)
    ensures c.key in Managed(objects, refs, ca) && SecretKey(ServiceAt(objects, c)) in Managed(objects, refs, ca)
    ensures SecretKey(ServiceAt(objects, c)) in AllSecrets(objects, refs, ca)
  {
    hide ConfigsIn, ServiceAt;
    ConfigKey(objects, refs, c);
  }

  /** One configuration after writing: it is in the new chain data as it is in the new objects. */
  lemma ConfigWritten(objects: Objects, next: Objects, version: nat, refs: set<ObjectKey>, ca: ObjectKey,
                      d: ChainData, e: ChainData, c: Config)
    requires WrittenBack(objects, next, version, refs, ca, d, e) && c in Configs(objects, refs)
    ensures ServiceAt(next, c) == ServiceAt(objects, c) && HostAt(next, c) == HostAt(objects, c)
    ensures var n := HostAt(objects, c);
            && n in e.issued && BundleAt(c) in e.issued[n].caCertPEM
            && WebhookAt(next, c).caBundle == e.issued[n].caCertPEM[BundleAt(c)]
  {
    hide Configs, ConfigsIn, WrittenAt, AllSecrets, ServiceAt, BundleAt, WebhookAt, Unambiguous;
    ConfigIsManaged(objects, refs, ca, c);
    assert ConfigRead(d, objects, c, AllSecrets(objects, refs, ca));
    WrittenWebhook(objects, next, version, c, e);
  }

  lemma SameSecrets(objects: Objects, next: Objects, version: nat, refs: set<ObjectKey>, ca: ObjectKey,
                    d: ChainData, e: ChainData)
    requires WrittenBack(objects, next, version, refs, ca, d, e)
    ensures AllSecrets(next, refs, ca) == AllSecrets(objects, refs, ca)
  {
    hide WrittenBack, Configs, ServiceAt;
    SameConfigs(objects, next, version, refs, ca, d, e);
    forall c <- Configs(objects, refs) ensures ServiceAt(next, c) == ServiceAt(objects, c) {
      ConfigWritten(objects, next, version, refs, ca, d, e, c);
    }
  }

  lemma IssueReadAgain(objects: Objects, next: Objects, s: Service, secrets: set<ObjectKey>, more: set<ObjectKey>,
                       i: CertificateIssue, j: CertificateIssue)
    requires i.(caCertPEM := map[]) == IssueRead(objects, s, secrets)
    requires i.name == j.name && i.hostnames == j.hostnames && SecretKey(s) in more
    requires SecretPEMs(Lookup(next, SecretKey(s)), TLS_PRIVATE_KEY_KEY, TLS_CERT_KEY) == (j.keyPEM, j.certPEM)
    ensures StripIssue(j).(caCertPEM := map[]) == IssueRead(next, s, more)
  {
    hide Lookup, SecretPEMs, ServiceHostname;
  }

  lemma StripFacts(d: ChainData, n: string)
    requires n in d.issued
    ensures n in Strip(d).issued && Strip(d).issued[n] == StripIssue(d.issued[n])
  {
  }

  lemma IssueWritten(objects: Objects, next: Objects, version: nat, refs: set<ObjectKey>, ca: ObjectKey,
                     d: ChainData, e: ChainData, c: Config)
    requires WrittenBack(objects, next, version, refs, ca, d, e) && c in Configs(objects, refs)
    ensures ConfigRead(Strip(e), next, c, AllSecrets(next, refs, ca))
  {
    hide Configs, ConfigsIn, WrittenAt, AllSecrets, ServiceAt, BundleAt, WebhookAt, Agree, Lookup, NewCertificateIssue,
      SecretPEMs, ServiceHostname, NamespacedName, IssueRead, CARead, Strip, Serves, Bundles;
    ConfigWritten(objects, next, version, refs, ca, d, e, c);
    SameSecrets(objects, next, version, refs, ca, d, e);
    ConfigIsManaged(objects, refs, ca, c);
    var s, n := ServiceAt(objects, c), HostAt(objects, c);
    assert !NamedAs(SecretKey(s), ca);
    assert ConfigRead(d, objects, c, AllSecrets(objects, refs, ca));
    CANameRead(objects, ca, AllSecrets(objects, refs, ca));
    WrittenSecret(objects, next, version, s, e);
    IssueReadAgain(objects, next, s, AllSecrets(objects, refs, ca), AllSecrets(next, refs, ca), d.issued[n], e.issued[n]);
    StripFacts(e, n);
  }

  lemma CANameRead(objects: Objects, ca: ObjectKey, secrets: set<ObjectKey>)
    ensures CARead(objects, ca, secrets).name == NamespacedName(ca.namespace, ca.name)
  {
  }

  lemma StillAgree(objects: Objects, next: Objects, version: nat, refs: set<ObjectKey>, ca: ObjectKey,
                   d: ChainData, e: ChainData, c: Config, f: Config)
    requires WrittenBack(objects, next, version, refs, ca, d, e) && c in Configs(objects, refs) && f in Configs(objects, refs)
    ensures Agree(next, c, f)
  {
    hide Describes, Configs, ServiceAt, BundleAt, WebhookAt, Written, NamedAs;
    ConfigWritten(objects, next, version, refs, ca, d, e, c);
    ConfigWritten(objects, next, version, refs, ca, d, e, f);
    assert Agree(objects, c, f);
  }

  lemma StillSound(objects: Objects, next: Objects, version: nat, refs: set<ObjectKey>, ca: ObjectKey,
                   d: ChainData, e: ChainData)
    requires WrittenBack(objects, next, version, refs, ca, d, e)
    ensures Sound(next, refs, ca)
  {
    hide Describes, Configs, ServiceAt, Agree, Written, NamedAs;
    SameConfigs(objects, next, version, refs, ca, d, e);
    forall c <- Configs(objects, refs), f <- Configs(objects, refs) ensures Agree(next, c, f) {
      StillAgree(objects, next, version, refs, ca, d, e, c, f);
    }
    forall c <- Configs(objects, refs) ensures !NamedAs(SecretKey(ServiceAt(next, c)), ca) {
      ConfigWritten(objects, next, version, refs, ca, d, e, c);
    }
  }

  lemma ServedAfter(objects: Objects, next: Objects, configs: set<Config>, n: string, b: string)
    requires forall c <- configs :: HostAt(next, c) == HostAt(objects, c)
    ensures Serves(objects, configs, n) ==> Serves(next, configs, n)
    ensures Bundles(objects, configs, n, b) ==> Bundles(next, configs, n, b)
  {
    hide HostAt, BundleAt;
    if c :| c in configs && HostAt(objects, c) == n {
      assert HostAt(next, c) == n;
    }
    if c :| c in configs && HostAt(objects, c) == n && BundleAt(c) == b {
      assert HostAt(next, c) == n;
    }
  }

  /**
   * The round trip: chain data that were read, changed and written back are
   * what the objects describe now, provided the change kept the issues and
   * bundles there are and left no bundle empty.
   */
  lemma RoundTrip(objects: Objects, next: Objects, version: nat, refs: set<ObjectKey>, ca: ObjectKey,
                  d: ChainData, e: ChainData)
    requires WrittenBack(objects, next, version, refs, ca, d, e)
    ensures Sound(next, refs, ca) && Describes(next, refs, ca, Strip(e))
    ensures Managed(next, refs, ca) == Managed(objects, refs, ca)
  {
    hide Configs, ConfigsIn, WrittenAt, AllSecrets, Unambiguous, HostAt, ServiceAt, BundleAt, WebhookAt, Lookup, SecretPEMs,
      ConfigRead, Serves, Bundles, NamespacedName, StripIssue;
    var configs := Configs(objects, refs);
    SameConfigs(objects, next, version, refs, ca, d, e);
    SameSecrets(objects, next, version, refs, ca, d, e);
    StillSound(objects, next, version, refs, ca, d, e);
    CAIsManaged(objects, refs, ca);
    WrittenCASecret(objects, next, version, ca, e);
    forall c <- configs ensures ConfigRead(Strip(e), next, c, AllSecrets(next, refs, ca)) && HostAt(next, c) == HostAt(objects, c) {
      IssueWritten(objects, next, version, refs, ca, d, e, c);
      ConfigWritten(objects, next, version, refs, ca, d, e, c);
    }
    forall n <- Strip(e).issued ensures Serves(next, configs, n) {
      assert Serves(objects, configs, n);
      ServedAfter(objects, next, configs, n, "");
    }
    forall n <- Strip(e).issued, b <- Strip(e).issued[n].caCertPEM ensures Bundles(next, configs, n, b) {
      StripFacts(e, n);
      StripIssueKeepsBundles(e.issued[n]);
      assert Bundles(objects, configs, n, b);
      ServedAfter(objects, next, configs, n, b);
    }
  }

  lemma StripIssueKeepsBundles(i: CertificateIssue)
    ensures StripIssue(i).caCertPEM == i.caCertPEM
  {
  }

  lemma CAIsManaged(objects: Objects, refs: set<ObjectKey>, ca: ObjectKey)
    ensures ca in AllSecrets(objects, refs, ca) && ca in Managed(objects, refs, ca)
  {
  }
}
