/**
 * How Kubernetes objects and certificate chain data map to each other
 * (pkg/certificate/configuration.go), as values and relations.
 */
module Configuration {
  import opened Common
  import opened Triple
  import opened ChainModel
  import opened ApiServer

  type Objects = map<ObjectKey, Resource>

  const CA_CERT_KEY := "ca.crt"
  const CA_PRIVATE_KEY_KEY := "ca.key"
  const TLS_CERT_KEY := "tls.crt"
  const TLS_PRIVATE_KEY_KEY := "tls.key"
  const SECRET_MANAGED_ANNOTATION_KEY := "kubevirt.io/kube-admission-webhook"

  // ---- Names ----

  function NamespacedName(namespace: string, name: string): string {
    namespace + "/" + name
  }

  function KindName(kind: Kind): string {
    match kind
    case MutatingWebhook => "Mutating"
    case ValidatingWebhook => "Validating"
    case SecretKind => "Secret"
  }

  function KeyString(key: ObjectKey): string {
    KindName(key.kind) + "/" + NamespacedName(key.namespace, key.name)
  }

  function CABundleName(webhookName: string, configName: string): string {
    webhookName + "-" + configName
  }

  function ServiceHostname(s: Service): string {
    s.name + "." + s.namespace + ".svc"
  }

  function NewCertificateIssue(s: Service): CertificateIssue {
    var commonName := ServiceHostname(s);
    CertificateIssue(commonName, [s.name, s.name + "." + s.namespace, commonName, commonName + ".cluster.local"],
                     [], [], map[], None, [], map[])
  }

  function SecretKey(s: Service): ObjectKey {
    ObjectKey(SecretKind, s.namespace, s.name)
  }

  function FirstAt(s: string, c: char): nat {
    if s == "" || s[0] == c then 0 else 1 + FirstAt(s[1..], c)
  }

  lemma {:induction false} FirstAtAfter(front: string, c: char, back: string)
    requires c !in front
    ensures FirstAt(front + [c] + back, c) == |front|
  {
    if front != "" {
      assert (front + [c] + back)[1..] == front[1..] + [c] + back;
      FirstAtAfter(front[1..], c, back);
    }
  }

  /** Joining by a character that the first part does not contain loses nothing. */
  lemma JoinInjective(a: string, b: string, c: char, x: string, y: string)
    requires c !in a && c !in x && a + [c] + b == x + [c] + y
    ensures a == x && b == y
  {
    FirstAtAfter(a, c, b);
    FirstAtAfter(x, c, y);
    var s := a + [c] + b;
    assert a == s[..|a|] && x == s[..|x|];
    assert b == s[|a| + 1..] && y == s[|x| + 1..];
  }

  /** Services with dot-free names have host names of their own. */
  lemma HostnameInjective(s: Service, t: Service)
    requires '.' !in s.name && '.' !in t.name && ServiceHostname(s) == ServiceHostname(t)
    ensures s == t
  {
    assert ServiceHostname(s) == s.name + "." + (s.namespace + ".svc");
    assert ServiceHostname(t) == t.name + "." + (t.namespace + ".svc");
    JoinInjective(s.name, s.namespace + ".svc", '.', t.name, t.namespace + ".svc");
    assert s.namespace == (s.namespace + ".svc")[..|s.namespace|];
    assert t.namespace == (t.namespace + ".svc")[..|t.namespace|];
  }

  /** Bundle names are not injective: the two parts are joined by a character that both may contain. */
  lemma BundleNamesCollide()
    ensures exists k, l, c, e ::
              k != l && c != e && CABundleName(KeyString(k), c) == CABundleName(KeyString(l), e)
  {
    var k, l := ObjectKey(MutatingWebhook, "", "a"), ObjectKey(MutatingWebhook, "", "a-b");
    assert CABundleName(KeyString(k), "b-c") == CABundleName(KeyString(l), "c");
  }

  // ---- Objects ----

  /** The empty object that stands for one not found. */
  function InitObject(key: ObjectKey): Resource {
    if key.kind == SecretKind then
      Resource(0, map[SECRET_MANAGED_ANNOTATION_KEY := ""], Secret(OtherType(""), map[]), 0)
    else Resource(0, map[], WebhookConfiguration([]), 0)
  }

  function Lookup(objects: Objects, key: ObjectKey): (r: Resource) {
    if key in objects then objects[key] else InitObject(key)
  }

  function WebhooksOf(r: Resource): seq<Webhook> {
    if r.content.Secret? then [] else r.content.webhooks
  }

  /** The position of the last webhook of each name among those that name a service. */
  function ClientConfigs(webhooks: seq<Webhook>): map<string, nat> {
    if webhooks == [] then map[]
    else
      var before := ClientConfigs(webhooks[..|webhooks| - 1]);
      if Last(webhooks).service.None? then before
      else before[Last(webhooks).name := |webhooks| - 1]
  }

  lemma {:induction false} ClientConfigsAt(webhooks: seq<Webhook>)
    ensures forall c <- ClientConfigs(webhooks) ::
              && ClientConfigs(webhooks)[c] < |webhooks|
              && webhooks[ClientConfigs(webhooks)[c]].name == c
              && webhooks[ClientConfigs(webhooks)[c]].service.Some?
  {
    if webhooks != [] {
      ClientConfigsAt(webhooks[..|webhooks| - 1]);
    }
  }

  /** The last webhook of its name to name a service. */
  predicate LastToServe(webhooks: seq<Webhook>, i: nat) {
    && i < |webhooks| && webhooks[i].service.Some?
    && forall j :: i < j < |webhooks| && webhooks[j].name == webhooks[i].name ==> webhooks[j].service.None?
  }

  /** No webhook that names a service is missing, and exactly the last ones of their names count. */
  lemma {:induction false} ClientConfigsComplete(webhooks: seq<Webhook>)
    ensures forall i :: 0 <= i < |webhooks| && webhooks[i].service.Some? ==>
              webhooks[i].name in ClientConfigs(webhooks) && i <= ClientConfigs(webhooks)[webhooks[i].name]
    ensures forall i :: 0 <= i < |webhooks| ==>
              (LastToServe(webhooks, i) <==>
                 webhooks[i].name in ClientConfigs(webhooks) && ClientConfigs(webhooks)[webhooks[i].name] == i)
  {
    CountsEach(webhooks);
    ClientConfigsAt(webhooks);
    forall i | 0 <= i < |webhooks| && LastToServe(webhooks, i) ensures ClientConfigs(webhooks)[webhooks[i].name] == i {
    }
  }

  lemma {:induction false} CountsEach(webhooks: seq<Webhook>)
    ensures forall i :: 0 <= i < |webhooks| && webhooks[i].service.Some? ==>
              webhooks[i].name in ClientConfigs(webhooks) && i <= ClientConfigs(webhooks)[webhooks[i].name]
  {
    if webhooks != [] {
      var front := webhooks[..|webhooks| - 1];
      CountsEach(front);
      ClientConfigsAt(front);
      assert forall i :: 0 <= i < |front| ==> front[i] == webhooks[i];
    }
  }

  /** Client configurations depend on names and services only. */
  lemma {:induction false} ClientConfigsOf(v: seq<Webhook>, w: seq<Webhook>)
    requires |v| == |w| && forall i :: 0 <= i < |v| ==> v[i].name == w[i].name && v[i].service == w[i].service
    ensures ClientConfigs(v) == ClientConfigs(w)
  {
    if v != [] {
      ClientConfigsOf(v[..|v| - 1], w[..|w| - 1]);
    }
  }

  // ---- Reading ----

  /** One client configuration: the webhook object and the name of the webhook in it. */
  datatype Config = Config(key: ObjectKey, name: string)

  function ConfigsIn(objects: Objects, key: ObjectKey): set<Config> {
    set c | c in ClientConfigs(WebhooksOf(Lookup(objects, key))) :: Config(key, c)
  }

  function Configs(objects: Objects, refs: set<ObjectKey>): set<Config> {
    set k, c | k in refs && c in ConfigsIn(objects, k) :: c
  }

  function WebhookAt(objects: Objects, c: Config): Webhook {
    var webhooks := WebhooksOf(Lookup(objects, c.key));
    var at := ClientConfigs(webhooks);
    if c.name in at && at[c.name] < |webhooks| then webhooks[at[c.name]] else Webhook(c.name, None, [], 0)
  }

  function ServiceAt(objects: Objects, c: Config): Service {
    var service := WebhookAt(objects, c).service;
    if service.Some? then service.value else Service("", "")
  }

  function HostAt(objects: Objects, c: Config): string {
    ServiceHostname(ServiceAt(objects, c))
  }

  function BundleAt(c: Config): string {
    CABundleName(KeyString(c.key), c.name)
  }

  /** What the secret at a key says, or two times nothing unless both entries are there. */
  function SecretPEMs(r: Resource, keyKey: string, certKey: string): (PEM, PEM) {
    if r.content.Secret? && keyKey in r.content.data && certKey in r.content.data then
      (r.content.data[keyKey], r.content.data[certKey])
    else ([], [])
  }

  /** The issue of a service, apart from its bundles, when some secrets have been read. */
  function IssueRead(objects: Objects, s: Service, secrets: set<ObjectKey>): CertificateIssue {
    var (key, cert) := if SecretKey(s) in secrets then
                         SecretPEMs(Lookup(objects, SecretKey(s)), TLS_PRIVATE_KEY_KEY, TLS_CERT_KEY)
                       else ([], []);
    NewCertificateIssue(s).(keyPEM := key, certPEM := cert)
  }

  function CARead(objects: Objects, ca: ObjectKey, secrets: set<ObjectKey>): CA {
    var (key, cert) := if ca in secrets then SecretPEMs(Lookup(objects, ca), CA_PRIVATE_KEY_KEY, CA_CERT_KEY)
                       else ([], []);
    CA(NamespacedName(ca.namespace, ca.name), key, cert, None)
  }

  /** The issue for a configuration: that of its service, with the bundle among its bundles. */
  ghost predicate ConfigRead(d: ChainData, objects: Objects, c: Config, secrets: set<ObjectKey>) {
    && HostAt(objects, c) in d.issued
    && var i := d.issued[HostAt(objects, c)];
       && BundleAt(c) in i.caCertPEM
       && i.caCertPEM[BundleAt(c)] == WebhookAt(objects, c).caBundle
       && i.(caCertPEM := map[]) == IssueRead(objects, ServiceAt(objects, c), secrets)
  }

  predicate Serves(objects: Objects, configs: set<Config>, n: string) {
    exists c <- configs :: HostAt(objects, c) == n
  }

  predicate Bundles(objects: Objects, configs: set<Config>, n: string, b: string) {
    exists c <- configs :: HostAt(objects, c) == n && BundleAt(c) == b
  }

  /**
   * The chain that objects describe, once some configurations and some secrets
   * have been read: one issue per service host, one bundle per configuration.
   */
  ghost predicate ReadAs(d: ChainData, objects: Objects, configs: set<Config>, secrets: set<ObjectKey>, ca: ObjectKey) {
    && d.ca == CARead(objects, ca, secrets)
    && (forall c <- configs :: ConfigRead(d, objects, c, secrets))
    && (forall n <- d.issued :: Serves(objects, configs, n))
    && (forall n <- d.issued, b <- d.issued[n].caCertPEM :: Bundles(objects, configs, n, b))
  }

  /** Secrets are told from the CA secret by namespace and name. */
  predicate NamedAs(key: ObjectKey, ca: ObjectKey) {
    NamespacedName(key.namespace, key.name) == NamespacedName(ca.namespace, ca.name)
  }

  /**
   * Configurations that share a host name share the service, and those that
   * share a bundle name as well agree on the bundle,
   */
  ghost predicate Agree(objects: Objects, c: Config, e: Config) {
    HostAt(objects, c) == HostAt(objects, e) ==>
      && ServiceAt(objects, c) == ServiceAt(objects, e)
      && (BundleAt(c) == BundleAt(e) ==> WebhookAt(objects, c).caBundle == WebhookAt(objects, e).caBundle)
  }

  /** and no service secret passes for the CA secret. */
  ghost predicate Unambiguous(objects: Objects, configs: set<Config>, ca: ObjectKey) {
    && (forall c <- configs, e <- configs :: Agree(objects, c, e))
    && forall c <- configs :: !NamedAs(SecretKey(ServiceAt(objects, c)), ca)
  }

  lemma ServedBy(objects: Objects, configs: set<Config>, n: string)
    requires Serves(objects, configs, n)
    ensures exists c <- configs :: HostAt(objects, c) == n
  {
  }

  lemma BundledBy(objects: Objects, configs: set<Config>, n: string, b: string)
    requires Bundles(objects, configs, n, b)
    ensures exists c <- configs :: HostAt(objects, c) == n && BundleAt(c) == b
  {
  }

  lemma IssueIsUnique(d: ChainData, e: ChainData, objects: Objects, configs: set<Config>, secrets: set<ObjectKey>,
                      ca: ObjectKey, n: string)
    requires ReadAs(d, objects, configs, secrets, ca) && ReadAs(e, objects, configs, secrets, ca) && n in d.issued
    ensures n in e.issued && d.issued[n] == e.issued[n]
  {
    hide ServiceAt, HostAt, BundleAt, WebhookAt, IssueRead, CARead, Serves, Bundles;
    assert Serves(objects, configs, n);
    ServedBy(objects, configs, n);
    var c :| c in configs && HostAt(objects, c) == n;
    assert ConfigRead(d, objects, c, secrets) && ConfigRead(e, objects, c, secrets);
    forall b | b in d.issued[n].caCertPEM || b in e.issued[n].caCertPEM
      ensures b in d.issued[n].caCertPEM && b in e.issued[n].caCertPEM
      ensures d.issued[n].caCertPEM[b] == e.issued[n].caCertPEM[b]
    {
      assert Bundles(objects, configs, n, b);
      BundledBy(objects, configs, n, b);
      var f :| f in configs && HostAt(objects, f) == n && BundleAt(f) == b;
      assert ConfigRead(d, objects, f, secrets) && ConfigRead(e, objects, f, secrets);
    }
    assert d.issued[n].caCertPEM == e.issued[n].caCertPEM;
  }

  /** Whatever order the objects were read in, there is only one such chain. */
  lemma ReadIsUnique(d: ChainData, e: ChainData, objects: Objects, configs: set<Config>, secrets: set<ObjectKey>, ca: ObjectKey)
    requires ReadAs(d, objects, configs, secrets, ca) && ReadAs(e, objects, configs, secrets, ca)
    ensures d == e
  {
    hide ConfigRead, Serves, Bundles;
    forall n | n in d.issued || n in e.issued
      ensures n in d.issued && n in e.issued && d.issued[n] == e.issued[n]
    {
      if n in d.issued {
        IssueIsUnique(d, e, objects, configs, secrets, ca, n);
      } else {
        IssueIsUnique(e, d, objects, configs, secrets, ca, n);
      }
    }
    assert d.issued == e.issued;
  }

  // ---- One object at a time ----

  /** Nothing but the CA secret and the secrets of known services has been read. */
  ghost predicate SecretsKnown(objects: Objects, configs: set<Config>, secrets: set<ObjectKey>, ca: ObjectKey) {
    forall k <- secrets :: k == ca || exists c <- configs :: SecretKey(ServiceAt(objects, c)) == k
  }

  function WithConfig(d: ChainData, service: Service, bundle: string, pem: PEM): ChainData {
    var n := ServiceHostname(service);
    var i := if n in d.issued then d.issued[n] else NewCertificateIssue(service);
    d.(issued := d.issued[n := i.(caCertPEM := i.caCertPEM[bundle := pem])])
  }

  function WithServiceSecret(d: ChainData, n: string, r: Resource): ChainData
    requires n in d.issued
  {
    if r.content.Secret? && TLS_PRIVATE_KEY_KEY in r.content.data && TLS_CERT_KEY in r.content.data then
      d.(issued := d.issued[n := d.issued[n].(keyPEM := r.content.data[TLS_PRIVATE_KEY_KEY],
                                              certPEM := r.content.data[TLS_CERT_KEY])])
    else d
  }

  function WithCASecret(d: ChainData, r: Resource): ChainData {
    if r.content.Secret? && CA_PRIVATE_KEY_KEY in r.content.data && CA_CERT_KEY in r.content.data then
      d.(ca := d.ca.(keyPEM := r.content.data[CA_PRIVATE_KEY_KEY], certPEM := r.content.data[CA_CERT_KEY]))
    else d
  }

  lemma ConfigAddsIssue(objects: Objects, configs: set<Config>, secrets: set<ObjectKey>, ca: ObjectKey, c: Config)
    requires Unambiguous(objects, configs + {c}, ca) && SecretsKnown(objects, configs, secrets, ca)
    requires !Serves(objects, configs, HostAt(objects, c))
    ensures IssueRead(objects, ServiceAt(objects, c), secrets) == NewCertificateIssue(ServiceAt(objects, c))
  {
    var k := SecretKey(ServiceAt(objects, c));
    assert c in configs + {c};
    forall e <- configs ensures SecretKey(ServiceAt(objects, e)) != k {
      assert HostAt(objects, e) != HostAt(objects, c);
    }
  }

  function ChainWithConfig(d: ChainData, objects: Objects, c: Config): ChainData {
    WithConfig(d, ServiceAt(objects, c), BundleAt(c), WebhookAt(objects, c).caBundle)
  }

  lemma ServesMore(objects: Objects, configs: set<Config>, c: Config, n: string, b: string)
    ensures Serves(objects, configs + {c}, n) <==> Serves(objects, configs, n) || HostAt(objects, c) == n
    ensures Bundles(objects, configs + {c}, n, b) <==>
              Bundles(objects, configs, n, b) || (HostAt(objects, c) == n && BundleAt(c) == b)
  {
    hide HostAt, BundleAt;
    assert c in configs + {c};
    if f :| f in configs && HostAt(objects, f) == n {
      assert f in configs + {c};
    }
    if f :| f in configs && HostAt(objects, f) == n && BundleAt(f) == b {
      assert f in configs + {c};
    }
  }

  /** The issue that a configuration joins is that of its service. */
  lemma JoinsIssue(d: ChainData, objects: Objects, configs: set<Config>, secrets: set<ObjectKey>, ca: ObjectKey, c: Config)
    requires ReadAs(d, objects, configs, secrets, ca) && SecretsKnown(objects, configs, secrets, ca)
    requires Unambiguous(objects, configs + {c}, ca)
    ensures var n, s := HostAt(objects, c), ServiceAt(objects, c);
            var i := if n in d.issued then d.issued[n] else NewCertificateIssue(s);
            i.(caCertPEM := map[]) == IssueRead(objects, s, secrets)
    ensures HostAt(objects, c) !in d.issued ==> !Serves(objects, configs, HostAt(objects, c))
  {
    hide BundleAt, WebhookAt, CARead, SecretsKnown, NewCertificateIssue;
    var n := HostAt(objects, c);
    if n !in d.issued {
      forall f <- configs ensures HostAt(objects, f) != n {
        assert ConfigRead(d, objects, f, secrets);
      }
      ConfigAddsIssue(objects, configs, secrets, ca, c);
      NewIssueHasNoBundle(ServiceAt(objects, c));
    } else {
      assert Serves(objects, configs, n);
      var f :| f in configs && HostAt(objects, f) == n;
      assert f in configs + {c} && c in configs + {c};
      assert Agree(objects, c, f) && ConfigRead(d, objects, f, secrets);
    }
  }

  lemma WithConfigFacts(d: ChainData, s: Service, b: string, pem: PEM)
    ensures var n, e := ServiceHostname(s), WithConfig(d, s, b, pem);
            var i := if n in d.issued then d.issued[n] else NewCertificateIssue(s);
            && e.ca == d.ca
            && e.issued.Keys == d.issued.Keys + {n}
            && e.issued[n].caCertPEM == i.caCertPEM[b := pem]
            && e.issued[n].(caCertPEM := map[]) == i.(caCertPEM := map[])
            && forall m <- d.issued :: m != n ==> e.issued[m] == d.issued[m]
  {
    hide ServiceHostname, NewCertificateIssue;
  }

  lemma ConfigReadKept(d: ChainData, objects: Objects, secrets: set<ObjectKey>, c: Config, f: Config)
    requires var n, s := HostAt(objects, c), ServiceAt(objects, c);
             var i := if n in d.issued then d.issued[n] else NewCertificateIssue(s);
             i.(caCertPEM := map[]) == IssueRead(objects, s, secrets)
    requires f != c ==> ConfigRead(d, objects, f, secrets)
    requires Agree(objects, c, f)
    ensures ConfigRead(ChainWithConfig(d, objects, c), objects, f, secrets)
  {
    hide IssueRead, NewCertificateIssue, ServiceAt, BundleAt, WebhookAt, WithConfig, ServiceHostname;
    WithConfigFacts(d, ServiceAt(objects, c), BundleAt(c), WebhookAt(objects, c).caBundle);
  }

  lemma ConfigsReadAfter(d: ChainData, objects: Objects, configs: set<Config>, secrets: set<ObjectKey>, ca: ObjectKey,
                         c: Config, f: Config)
    requires ReadAs(d, objects, configs, secrets, ca) && SecretsKnown(objects, configs, secrets, ca)
    requires Unambiguous(objects, configs + {c}, ca) && f in configs + {c}
    ensures ConfigRead(ChainWithConfig(d, objects, c), objects, f, secrets)
  {
    hide CARead, SecretsKnown, IssueRead, NewCertificateIssue, ServiceAt, BundleAt, WebhookAt, WithConfig, ServiceHostname,
      ConfigRead, Agree, Serves, Bundles;
    JoinsIssue(d, objects, configs, secrets, ca, c);
    assert c in configs + {c} && Agree(objects, c, f);
    assert f != c ==> f in configs && ConfigRead(d, objects, f, secrets);
    ConfigReadKept(d, objects, secrets, c, f);
  }

  lemma AddConfig(d: ChainData, objects: Objects, configs: set<Config>, secrets: set<ObjectKey>, ca: ObjectKey, c: Config)
    requires ReadAs(d, objects, configs, secrets, ca) && SecretsKnown(objects, configs, secrets, ca)
    requires Unambiguous(objects, configs + {c}, ca)
    ensures ReadAs(ChainWithConfig(d, objects, c), objects, configs + {c}, secrets, ca)
  {
    hide ServiceAt, BundleAt, WebhookAt, IssueRead, CARead, SecretsKnown, NewCertificateIssue, ConfigRead, Serves, Bundles,
      Unambiguous;
    var e := ChainWithConfig(d, objects, c);
    forall f <- configs + {c} ensures ConfigRead(e, objects, f, secrets) {
      ConfigsReadAfter(d, objects, configs, secrets, ca, c, f);
    }
    forall m <- e.issued ensures Serves(objects, configs + {c}, m) {
      ServesMore(objects, configs, c, m, "");
    }
    forall m <- e.issued, b <- e.issued[m].caCertPEM ensures Bundles(objects, configs + {c}, m, b) {
      ServesMore(objects, configs, c, m, b);
      JoinsIssue(d, objects, configs, secrets, ca, c);
      NewIssueHasNoBundle(ServiceAt(objects, c));
    }
  }

  lemma NewIssueHasNoBundle(s: Service)
    ensures NewCertificateIssue(s).caCertPEM == map[]
  {
  }

  lemma ServiceSecretIs(objects: Objects, s: Service, t: Service, secrets: set<ObjectKey>)
    ensures s != t ==> IssueRead(objects, s, secrets + {SecretKey(t)}) == IssueRead(objects, s, secrets)
    ensures var (key, cert) := SecretPEMs(Lookup(objects, SecretKey(s)), TLS_PRIVATE_KEY_KEY, TLS_CERT_KEY);
            IssueRead(objects, s, secrets + {SecretKey(s)}) == NewCertificateIssue(s).(keyPEM := key, certPEM := cert)
  {
  }

  lemma ServiceSecretRead(d: ChainData, objects: Objects, secrets: set<ObjectKey>, c: Config, f: Config)
    requires ConfigRead(d, objects, c, secrets) && ConfigRead(d, objects, f, secrets) && Agree(objects, c, f)
    ensures var k := SecretKey(ServiceAt(objects, c));
            ConfigRead(WithServiceSecret(d, HostAt(objects, c), Lookup(objects, k)), objects, f, secrets + {k})
  {
    hide ServiceAt, BundleAt, WebhookAt, Lookup, NewCertificateIssue, ServiceHostname;
    ServiceSecretIs(objects, ServiceAt(objects, f), ServiceAt(objects, c), secrets);
  }

  lemma AddServiceSecret(d: ChainData, objects: Objects, configs: set<Config>, secrets: set<ObjectKey>, ca: ObjectKey, c: Config)
    requires ReadAs(d, objects, configs, secrets, ca) && Unambiguous(objects, configs, ca) && c in configs
    ensures HostAt(objects, c) in d.issued
    ensures var k := SecretKey(ServiceAt(objects, c));
            ReadAs(WithServiceSecret(d, HostAt(objects, c), Lookup(objects, k)), objects, configs, secrets + {k}, ca)
  {
    hide ServiceAt, HostAt, BundleAt, WebhookAt, Lookup, Serves, Bundles, Agree;
    var k := SecretKey(ServiceAt(objects, c));
    assert ConfigRead(d, objects, c, secrets);
    var e := WithServiceSecret(d, HostAt(objects, c), Lookup(objects, k));
    forall f <- configs ensures ConfigRead(e, objects, f, secrets + {k}) {
      ServiceSecretRead(d, objects, secrets, c, f);
    }
    assert forall n <- e.issued :: n in d.issued && e.issued[n].caCertPEM == d.issued[n].caCertPEM;
  }

  lemma AddCASecret(d: ChainData, objects: Objects, configs: set<Config>, secrets: set<ObjectKey>, ca: ObjectKey)
    requires ReadAs(d, objects, configs, secrets, ca) && Unambiguous(objects, configs, ca)
    ensures ReadAs(WithCASecret(d, Lookup(objects, ca)), objects, configs, secrets + {ca}, ca)
  {
    hide ServiceAt, HostAt, BundleAt, WebhookAt, Lookup, Serves, Bundles, Agree;
    var e := WithCASecret(d, Lookup(objects, ca));
    forall f <- configs ensures ConfigRead(e, objects, f, secrets + {ca}) {
      assert ConfigRead(d, objects, f, secrets);
      assert SecretKey(ServiceAt(objects, f)) != ca;
    }
  }

  lemma NothingRead(objects: Objects, ca: ObjectKey, d: ChainData)
    requires d == ChainData(map[], CA(NamespacedName(ca.namespace, ca.name), [], [], None))
    ensures ReadAs(d, objects, {}, {}, ca)
  {
  }
}
