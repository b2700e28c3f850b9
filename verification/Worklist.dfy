/**
 * How far reading has come, all in one: for any environment, and for one that
 * leaves the store alone.
 */
module Worklist {
  import opened Common
  import opened Triple
  import opened ChainOptions
  import opened ChainModel
  import opened ChainFacts
  import opened ChainInvariant
  import opened ChainRepair
  import opened ChainRuns
  import opened ApiServer
  import opened Configuration
  import opened Reading
  import opened Writing
  import opened Sharing
  import opened Hosting

  // ---- Any environment ----

  /** What was read is in the log of what was asked. */
  ghost predicate Recorded(log: seq<Event>, start: nat, e: Event) {
    exists j :: start <= j < |log| && log[j] == e
  }

  lemma RecordedLonger(log: seq<Event>, more: seq<Event>, start: nat, e: Event)
    requires Recorded(log, start, e) && log <= more
    ensures Recorded(more, start, e)
  {
    var j :| start <= j < |log| && log[j] == e;
    assert more[j] == e;
  }

  /** What was found under a key, going by the object that reading kept: one never stored has no version. */
  function AsFound(r: Resource): Option<Resource> {
    if r.version == 0 then None else Some(r)
  }

  ghost predicate EntriesRecorded(entries: Entries, log: seq<Event>, start: nat) {
    forall p <- entries :: entries[p].kobject.Some? ==>
      && Recorded(log, start, Read(entries[p].key, AsFound(entries[p].kobject.value)))
      && EmptyUnlessFound(entries[p].key, entries[p].kobject.value)
  }

  /** An object that was never stored is the empty one. */
  predicate EmptyUnlessFound(key: ObjectKey, r: Resource) {
    r.version == 0 ==> r == InitObject(key)
  }

  ghost predicate Tracked(entries: Entries, d: ChainData, log: seq<Event>, start: nat) {
    Safe(entries, d) && EntriesRecorded(entries, log, start)
  }

  predicate EntriesHosted(entries: Entries) {
    forall p <- entries :: entries[p].kobject.Some? ==> HostedResource(entries[p].kobject.value)
  }

  /** Where every stored certificate names a host, every one that was read does. */
  predicate HostedReading(entries: Entries, d: ChainData, objects: Objects, schedule: seq<Turn>) {
    EntriesHosted(entries) && HostedChain(d) && HostedWorld(objects, schedule)
  }

  // ---- Bundles that were read are in the chain data ----

  /** No configuration of one webhook object can have the bundle name of one of the other. */
  ghost predicate Distinguishable(k: ObjectKey, l: ObjectKey) {
    forall c: string, e: string :: CABundleName(KeyString(k), c) != CABundleName(KeyString(l), e)
  }

  ghost predicate Unmistakable(listed: seq<ObjectKey>) {
    forall i, j :: 0 <= i < j < |listed| ==> Distinguishable(listed[i], listed[j]) && Distinguishable(listed[j], listed[i])
  }

  /** The string of a key begins with the kind, and ends with namespace and name. */
  lemma KeyStringIs(k: ObjectKey)
    ensures KeyString(k) == (match k.kind
                             case MutatingWebhook => "Mutating/"
                             case ValidatingWebhook => "Validating/"
                             case SecretKind => "Secret/") + k.namespace + "/" + k.name
  {
  }

  /** So webhook objects of different kinds, whatever their names, never have a bundle name in common. */
  lemma KindsAreDistinguishable(k: ObjectKey, l: ObjectKey)
    requires k.kind != l.kind
    ensures Distinguishable(k, l) && Distinguishable(l, k)
  {
    KeyStringIs(k);
    KeyStringIs(l);
    forall c: string, e: string ensures CABundleName(KeyString(k), c) != CABundleName(KeyString(l), e) {
      assert CABundleName(KeyString(k), c)[0] != CABundleName(KeyString(l), e)[0];
    }
  }

  lemma ShorterIsPrefix(p: string, c: string, q: string, e: string)
    requires p + c == q + e
    ensures p <= q || q <= p
  {
    assert p == (p + c)[..|p|] && q == (q + e)[..|q|];
  }

  /** That is so exactly when neither name, with the hyphen that follows it, is a prefix of the other. */
  lemma DistinguishableByPrefix(k: ObjectKey, l: ObjectKey)
    ensures var p, q := KeyString(k) + "-", KeyString(l) + "-";
            Distinguishable(k, l) <==> !(p <= q) && !(q <= p)
  {
    hide KeyString;
    var p, q := KeyString(k) + "-", KeyString(l) + "-";
    if p <= q {
      assert CABundleName(KeyString(k), q[|p|..]) == CABundleName(KeyString(l), "");
    } else if q <= p {
      assert CABundleName(KeyString(k), "") == CABundleName(KeyString(l), p[|q|..]);
    } else {
      forall c: string, e: string ensures p + c != q + e {
        if p + c == q + e {
          ShorterIsPrefix(p, c, q, e);
        }
      }
    }
  }

  /** The bundle of one webhook of an object is in the chain data. */
  predicate Carried(key: ObjectKey, webhooks: seq<Webhook>, c: string, d: ChainData) {
    var at := ClientConfigs(webhooks);
    c in at && at[c] < |webhooks| && webhooks[at[c]].service.Some? ==>
      var w := webhooks[at[c]];
      var n, b := ServiceHostname(w.service.value), CABundleName(KeyString(key), c);
      n in d.issued && b in d.issued[n].caCertPEM && d.issued[n].caCertPEM[b] == w.caBundle
  }

  ghost predicate AllCarried(key: ObjectKey, r: Resource, d: ChainData) {
    forall c: string :: Carried(key, WebhooksOf(r), c, d)
  }

  /** Every webhook object that was read, other than in entry but, is in the chain data. */
  ghost predicate CarryingBut(listed: seq<ObjectKey>, entries: Entries, d: ChainData, but: nat) {
    Unmistakable(listed) ==>
      && (forall p <- entries, q <- entries ::
            p != q && entries[p].key.kind != SecretKind && entries[q].key.kind != SecretKind ==>
              Distinguishable(entries[p].key, entries[q].key))
      && forall p <- entries ::
           p != but && entries[p].key.kind != SecretKind && entries[p].kobject.Some? ==>
             AllCarried(entries[p].key, entries[p].kobject.value, d)
  }

  ghost predicate Carrying(listed: seq<ObjectKey>, entries: Entries, d: ChainData) {
    Unmistakable(listed) ==>
      && (forall p <- entries, q <- entries ::
            p != q && entries[p].key.kind != SecretKind && entries[q].key.kind != SecretKind ==>
              Distinguishable(entries[p].key, entries[q].key))
      && forall p <- entries ::
           entries[p].key.kind != SecretKind && entries[p].kobject.Some? ==>
             AllCarried(entries[p].key, entries[p].kobject.value, d)
  }

  lemma SuffixDecides(k: ObjectKey, c: string, e: string)
    requires CABundleName(KeyString(k), c) == CABundleName(KeyString(k), e)
    ensures c == e
  {
    hide KeyString;
    var front := KeyString(k) + "-";
    assert c == (front + c)[|front|..] && e == (front + e)[|front|..];
  }

  /** Adding one configuration leaves the others of distinguishable webhooks in the chain data. */
  lemma CarriedStays(key: ObjectKey, webhooks: seq<Webhook>, c: string, d: ChainData, s: Service, bundle: string, pem: PEM)
    requires Carried(key, webhooks, c, d) && CABundleName(KeyString(key), c) != bundle
    ensures Carried(key, webhooks, c, WithConfig(d, s, bundle, pem))
  {
    hide ServiceHostname, CABundleName, KeyString, ClientConfigs, NewCertificateIssue;
  }

  lemma CarriedNow(key: ObjectKey, webhooks: seq<Webhook>, c: string, d: ChainData)
    requires c in ClientConfigs(webhooks)
    ensures var at := ClientConfigs(webhooks);
            && at[c] < |webhooks| && webhooks[at[c]].service.Some?
            && Carried(key, webhooks, c, WithConfig(d, webhooks[at[c]].service.value, CABundleName(KeyString(key), c), webhooks[at[c]].caBundle))
  {
    hide ServiceHostname, CABundleName, KeyString, ClientConfigs, NewCertificateIssue;
    ClientConfigsAt(webhooks);
  }

  lemma CarryingMore(listed: seq<ObjectKey>, entries: Entries, d: ChainData, p: nat, s: Service, c: string, pem: PEM, q: nat)
    requires CarryingBut(listed, entries, d, p) && p in entries && entries[p].key.kind != SecretKind && q !in entries
    ensures CarryingBut(listed, entries[q := KeyedObject(SecretKey(s), None)],
                        WithConfig(d, s, CABundleName(KeyString(entries[p].key), c), pem), p)
  {
    hide Carried, WithConfig, CABundleName, KeyString, Unmistakable, WebhooksOf;
    var next, bundle := entries[q := KeyedObject(SecretKey(s), None)], CABundleName(KeyString(entries[p].key), c);
    var e := WithConfig(d, s, bundle, pem);
    if Unmistakable(listed) {
      forall r <- next | r != p && next[r].key.kind != SecretKind && next[r].kobject.Some?
        ensures AllCarried(next[r].key, next[r].kobject.value, e)
      {
        assert r in entries && Distinguishable(entries[r].key, entries[p].key);
        forall f: string ensures Carried(next[r].key, WebhooksOf(next[r].kobject.value), f, e) {
          CarriedStays(next[r].key, WebhooksOf(next[r].kobject.value), f, d, s, bundle, pem);
        }
      }
    }
  }

  /** The configurations of one webhook object that have been mapped. */
  ghost predicate MappedSoFar(key: ObjectKey, webhooks: seq<Webhook>, todo: set<string>, d: ChainData) {
    forall c: string :: c !in todo ==> Carried(key, webhooks, c, d)
  }

  lemma MappedOneMore(key: ObjectKey, webhooks: seq<Webhook>, todo: set<string>, c: string, d: ChainData)
    requires MappedSoFar(key, webhooks, todo, d) && c in todo && c in ClientConfigs(webhooks)
    ensures var at := ClientConfigs(webhooks);
            && at[c] < |webhooks| && webhooks[at[c]].service.Some?
            && MappedSoFar(key, webhooks, todo - {c},
                           WithConfig(d, webhooks[at[c]].service.value, CABundleName(KeyString(key), c), webhooks[at[c]].caBundle))
  {
    hide Carried, WithConfig, ClientConfigs, CABundleName, KeyString;
    CarriedNow(key, webhooks, c, d);
    var w := webhooks[ClientConfigs(webhooks)[c]];
    var bundle := CABundleName(KeyString(key), c);
    forall f: string | f !in todo - {c}
      ensures Carried(key, webhooks, f, WithConfig(d, w.service.value, bundle, w.caBundle))
    {
      if f != c {
        if CABundleName(KeyString(key), f) == bundle {
          SuffixDecides(key, f, c);
        }
        CarriedStays(key, webhooks, f, d, w.service.value, bundle, w.caBundle);
      }
    }
  }

  lemma NothingMapped(key: ObjectKey, webhooks: seq<Webhook>, d: ChainData)
    ensures MappedSoFar(key, webhooks, ClientConfigs(webhooks).Keys, d)
  {
    hide ServiceHostname, CABundleName, KeyString, ClientConfigs;
  }

  lemma AllMapped(listed: seq<ObjectKey>, entries: Entries, d: ChainData, p: nat)
    requires CarryingBut(listed, entries, d, p)
    requires p in entries ==> entries[p].kobject.Some? && MappedSoFar(entries[p].key, WebhooksOf(entries[p].kobject.value), {}, d)
    ensures Carrying(listed, entries, d)
  {
    hide Carried, Distinguishable, Unmistakable, WebhooksOf;
  }

  lemma CarryingRead(listed: seq<ObjectKey>, entries: Entries, d: ChainData, p: nat, r: Resource)
    requires Carrying(listed, entries, d) && p in entries
    ensures CarryingBut(listed, entries[p := KeyedObject(entries[p].key, Some(r))], d, p)
    ensures entries[p].key.kind == SecretKind ==> Carrying(listed, entries[p := KeyedObject(entries[p].key, Some(r))], d)
  {
    hide AllCarried, Distinguishable, Unmistakable;
  }

  lemma CarryingLess(listed: seq<ObjectKey>, entries: Entries, d: ChainData, p: nat)
    requires CarryingBut(listed, entries, d, p)
    ensures Carrying(listed, entries - {p}, d)
  {
    hide AllCarried, Distinguishable, Unmistakable;
  }

  lemma SameBundlesCarried(key: ObjectKey, webhooks: seq<Webhook>, c: string, d: ChainData, e: ChainData)
    requires Carried(key, webhooks, c, d)
    requires forall n <- d.issued :: n in e.issued && e.issued[n].caCertPEM == d.issued[n].caCertPEM
    ensures Carried(key, webhooks, c, e)
  {
    hide ClientConfigs, ServiceHostname, CABundleName, KeyString;
  }

  lemma CarryingSecret(listed: seq<ObjectKey>, entries: Entries, d: ChainData, key: ObjectKey, r: Resource)
    requires Carrying(listed, entries, d) && SecretFits(key, d)
    ensures Carrying(listed, entries, WithSecret(d, key, r))
  {
    hide Carried, Distinguishable, Unmistakable, ServiceHostname, NamespacedName, WebhooksOf;
    var e := WithSecret(d, key, r);
    assert forall n <- d.issued :: n in e.issued && e.issued[n].caCertPEM == d.issued[n].caCertPEM;
    forall k: ObjectKey, o: Resource | AllCarried(k, o, d) ensures AllCarried(k, o, e) {
      forall c: string ensures Carried(k, WebhooksOf(o), c, e) {
        SameBundlesCarried(k, WebhooksOf(o), c, d, e);
      }
    }
  }

  /** The webhooks of an object are the same, and no bundle lost an unexpired certificate. */
  predicate KeepsTrust(before: Resource, after: Resource, now: Time) {
    var v, w := WebhooksOf(before), WebhooksOf(after);
    && |v| == |w|
    && forall j :: 0 <= j < |v| ==>
         v[j].name == w[j].name && v[j].service == w[j].service && KeepsUnexpired(v[j].caBundle, w[j].caBundle, now)
  }

  lemma KeepsAll(pem: PEM, now: Time)
    ensures KeepsUnexpired(pem, pem, now)
  {
  }

  /** Mapping chain data that kept the trust in what was read keeps the trust in the object. */
  lemma MappingKeepsTrust(key: ObjectKey, r: Resource, d: ChainData, e: ChainData, now: Time)
    requires r.content.Secret? || AllCarried(key, r, d)
    requires TrustKept(d, e, now)
    ensures KeepsTrust(r, FromChain(key, r, e), now)
  {
    hide ServiceHostname, CABundleName, KeyString, ClientConfigs, KeepsUnexpired, NamespacedName;
    var webhooks := WebhooksOf(r);
    forall j | 0 <= j < |webhooks|
      ensures KeepsUnexpired(webhooks[j].caBundle, MappedWebhook(key, webhooks, j, e).caBundle, now)
    {
      KeepsAll(webhooks[j].caBundle, now);
      assert Carried(key, webhooks, webhooks[j].name, d);
    }
  }

  // ---- Bundles that take each other's place ----

  lemma StepBundle(o: Options, d: ChainData, draw: Draw, now: Time, n: string, b: string)
    requires Workable(o) && MeasurableLists(o, Decoded(d)) && 0 <= now
    requires n in d.issued && b in d.issued[n].caCertPEM
    ensures var e := Step(o, d, draw, now);
            && n in e.issued && b in e.issued[n].caCertPEM
            && CertsIn(e.issued[n].caCertPEM[b])
               == Unexpired(CertsIn(d.issued[n].caCertPEM[b]) + AddedCAs(o, Decoded(d), draw, now), now)
  {
    hide Updated, CertsIn, Unexpired, AddedCAs, MeasurableLists, Workable, Coherent;
    var f, e := Decoded(d), Step(o, d, draw, now);
    DecodedIsCoherent(d);
    assert BundlesCoherent(f);
    UpdatedBundlesCoherent(o, f, draw, now);
    UpdatedBundle(o, f, draw, now, n, b);
    assert ReadableBundles(e.issued[n]);
  }

  /**
   * Webhooks of one service whose bundle names collide are given one and the same
   * bundle. Where that of the one is in the chain data, the other keeps its
   * unexpired certificates if and only if the one had them as well or the update
   * adds them.
   */
  lemma CollidingBundles(k: ObjectKey, v: Webhook, l: ObjectKey, w: Webhook, o: Options, d: ChainData, draw: Draw, now: Time)
    requires Workable(o) && MeasurableLists(o, Decoded(d)) && 0 <= now
    requires v.service == w.service && CABundleName(KeyString(k), v.name) == CABundleName(KeyString(l), w.name)
    requires Carried(k, [v], v.name, d) && v.service.Some?
    ensures var e := Step(o, d, draw, now);
            && BundleFor(k, v, e) == BundleFor(l, w, e)
            && (KeepsUnexpired(w.caBundle, BundleFor(l, w, e), now) <==>
                  forall c <- CertsIn(w.caBundle) | now < c.NotAfter() ::
                    c in CertsIn(v.caBundle) || c in AddedCAs(o, Decoded(d), draw, now))
  {
    hide KeyString, CABundleName, ServiceHostname, Step, CertsIn, Unexpired, AddedCAs, MeasurableLists, Workable, Decoded;
    var n, b := ServiceHostname(v.service.value), CABundleName(KeyString(k), v.name);
    OnlyWebhook(v);
    StepBundle(o, d, draw, now, n, b);
    var before, added := CertsIn(v.caBundle), AddedCAs(o, Decoded(d), draw, now);
    forall c ensures c in Unexpired(before + added, now) <==> (c in before || c in added) && now < c.NotAfter() {
      UnexpiredMember(before + added, now, c);
    }
  }

  lemma OnlyWebhook(v: Webhook)
    requires v.service.Some?
    ensures ClientConfigs([v]) == map[v.name := 0]
  {
    assert [v][..0] == [];
  }

  // ---- An environment that leaves the store alone ----

  /** The store, the webhooks to manage and the CA secret. */
  datatype View = View(objects: Objects, listed: seq<ObjectKey>, ca: ObjectKey)

  function Refs(v: View): set<ObjectKey> {
    KeysOf(v.listed)
  }

  /** What has been read so far, and why each entry is there. */
  datatype Progress = Progress(configs: set<Config>, secrets: set<ObjectKey>, origins: Origins)

  function BusyKeys(v: View, busy: Option<nat>): set<ObjectKey> {
    if busy.Some? && busy.value < |v.listed| then {v.listed[busy.value]} else {}
  }

  /** While the i-th webhook is being read, busy is Some(i). */
  ghost predicate Underway(v: View, entries: Entries, d: ChainData, g: Progress, busy: Option<nat>) {
    && AllWellKinded(v.objects)
    && Webhooks(v.listed, v.ca)
    && Sound(v.objects, Refs(v), v.ca)
    && ReadingInv(v.objects, Refs(v), v.ca, entries, d, g.configs, g.secrets, BusyKeys(v, busy))
    && Traced(v.objects, v.listed, v.ca, entries, g.origins, busy)
  }

  function ReadEntry(v: View, entries: Entries, p: nat): Entries
    requires p in entries
  {
    entries[p := entries[p].(kobject := Some(Lookup(v.objects, entries[p].key)))]
  }

  /** The i-th webhook has just been read into entry p, and nothing of it is in the chain data. */
  ghost predicate Opened(v: View, entries: Entries, d: ChainData, g: Progress, p: nat, i: nat) {
    && Underway(v, entries, d, g, Some(i))
    && p in entries && entries[p].kobject == Some(Lookup(v.objects, entries[p].key))
    && p in g.origins && g.origins[p] == Listed(i) && i < |v.listed| && v.listed[i] == entries[p].key
    && !Waiting(entries, g.origins, i)
    && forall q <- g.origins :: g.origins[q].Backing? ==> g.origins[q].i != i
  }

  lemma OpenWebhook(v: View, entries: Entries, d: ChainData, g: Progress, p: nat) returns (i: nat)
    requires Underway(v, entries, d, g, None) && Unread(entries, p) && entries[p].key.kind != SecretKind
    ensures Opened(v, ReadEntry(v, entries, p), d, g, p, i)
  {
    hide ReadingInv, Complete, KeyOf, Genuine, Waiting, Sound, Lookup, Webhooks;
    var r := Lookup(v.objects, entries[p].key);
    WebhookIsListed(v.objects, v.listed, v.ca, entries, g.origins, p);
    i := g.origins[p].i;
    StartWebhook(v.objects, Refs(v), v.ca, entries, d, g.configs, g.secrets, p);
    TraceRead(v.objects, v.listed, v.ca, entries, g.origins, p, r);
    WaitingAfterRead(entries, g.origins, p, r, i);
  }

  /** Some of the configurations of the i-th webhook are in the chain data, all but those in todo. */
  ghost predicate Mapping(v: View, entries: Entries, d: ChainData, g: Progress, i: nat, todo: set<string>) {
    && Underway(v, entries, d, g, Some(i))
    && i < |v.listed| && Present(entries, v.listed[i]) && !Waiting(entries, g.origins, i)
    && (forall c <- todo :: !Has(g.origins, Backing(i, c)))
    && forall c <- ClientConfigs(WebhooksOf(Lookup(v.objects, v.listed[i]))) :: c !in todo ==>
         Config(v.listed[i], c) in g.configs && Has(g.origins, Backing(i, c))
  }

  lemma StartMapping(v: View, entries: Entries, d: ChainData, g: Progress, p: nat, i: nat)
    requires Opened(v, entries, d, g, p, i)
    ensures Mapping(v, entries, d, g, i, ClientConfigs(WebhooksOf(Lookup(v.objects, v.listed[i]))).Keys)
  {
    hide Underway, Lookup, ClientConfigs, WebhooksOf, Waiting;
  }

  lemma HasMore(origins: Origins, q: nat, o: Origin, u: Origin)
    requires q !in origins
    ensures Has(origins[q := o], u) <==> Has(origins, u) || u == o
  {
    var more := origins[q := o];
    assert more[q] == o;
    if p :| p in origins && origins[p] == u {
      assert more[p] == u;
    }
  }

  lemma MapConfig(v: View, entries: Entries, d: ChainData, g: Progress, i: nat, todo: set<string>, c: string, q: nat)
    requires Mapping(v, entries, d, g, i, todo) && c in todo && q !in entries
    requires c in ClientConfigs(WebhooksOf(Lookup(v.objects, v.listed[i])))
    ensures var f := Config(v.listed[i], c);
            Mapping(v, entries[q := KeyedObject(SecretKey(ServiceAt(v.objects, f)), None)], ChainWithConfig(d, v.objects, f),
                    Progress(g.configs + {f}, g.secrets, g.origins[q := Backing(i, c)]), i, todo - {c})
  {
    hide ReadingInv, Complete, Genuine, KeyOf, Has, Waiting, Sound, Lookup, Webhooks, ServiceAt, ChainWithConfig, Present,
      ClientConfigs, WebhooksOf;
    var f := Config(v.listed[i], c);
    ConfigIn(v.objects, v.listed, i, c);
    ReadConfig(v.objects, Refs(v), v.ca, entries, d, g.configs, g.secrets, v.listed[i], f, q);
    TraceConfig(v.objects, v.listed, v.ca, entries, g.origins, i, c, q);
    forall u: Origin ensures Has(g.origins[q := Backing(i, c)], u) <==> Has(g.origins, u) || u == Backing(i, c) {
      HasMore(g.origins, q, Backing(i, c), u);
    }
  }

  lemma ConfigIn(objects: Objects, listed: seq<ObjectKey>, i: nat, c: string)
    requires i < |listed| && c in ClientConfigs(WebhooksOf(Lookup(objects, listed[i])))
    ensures Config(listed[i], c) in ConfigsIn(objects, listed[i]) && Genuine(objects, listed, Backing(i, c))
  {
  }

  lemma ConfigsMapped(objects: Objects, key: ObjectKey, configs: set<Config>)
    requires forall c <- ClientConfigs(WebhooksOf(Lookup(objects, key))) :: Config(key, c) in configs
    ensures ConfigsIn(objects, key) <= configs
  {
  }

  lemma BackingIn(objects: Objects, listed: seq<ObjectKey>, i: nat, c: string)
    requires Genuine(objects, listed, Backing(i, c))
    ensures i < |listed| && c in ClientConfigs(WebhooksOf(Lookup(objects, listed[i])))
  {
  }

  lemma FinishMapping(v: View, entries: Entries, d: ChainData, g: Progress, i: nat)
    requires Mapping(v, entries, d, g, i, {})
    ensures Underway(v, entries, d, g, None)
  {
    hide ReadingInv, Traced, Genuine, Has, Waiting, Sound, Lookup, Webhooks, Present, ClientConfigs, WebhooksOf, ConfigsIn;
    ConfigsMapped(v.objects, v.listed[i], g.configs);
    FinishWebhook(v.objects, Refs(v), v.ca, entries, d, g.configs, g.secrets, v.listed[i]);
    forall c: string | Genuine(v.objects, v.listed, Backing(i, c)) ensures Has(g.origins, Backing(i, c)) {
      BackingIn(v.objects, v.listed, i, c);
    }
    TraceFinished(v.objects, v.listed, v.ca, entries, g.origins, i);
  }

  lemma NoConfigs(objects: Objects, key: ObjectKey)
    requires ClientConfigs(WebhooksOf(Lookup(objects, key))) == map[]
    ensures ConfigsIn(objects, key) == {}
  {
  }

  lemma DropIdleWebhook(v: View, entries: Entries, d: ChainData, g: Progress, p: nat, i: nat)
    requires Opened(v, entries, d, g, p, i)
    requires ClientConfigs(WebhooksOf(Lookup(v.objects, v.listed[i]))) == map[]
    ensures Underway(v, entries - {p}, d, g.(origins := g.origins - {p}), None)
  {
    hide ReadingInv, Traced, Genuine, Has, Waiting, Sound, Lookup, Webhooks, Present, ClientConfigs, WebhooksOf, ConfigsIn;
    NoConfigs(v.objects, v.listed[i]);
    DropWebhook(v.objects, Refs(v), v.ca, entries, d, g.configs, g.secrets, p);
    TraceDropped(v.objects, v.listed, v.ca, entries, g.origins, p);
  }

  /** There is a place for what a secret says. */
  predicate SecretFits(key: ObjectKey, d: ChainData) {
    || NamespacedName(key.namespace, key.name) == d.ca.name
    || ServiceHostname(Service(key.namespace, key.name)) in d.issued
  }

  function WithSecret(d: ChainData, key: ObjectKey, r: Resource): ChainData
    requires SecretFits(key, d)
  {
    if NamespacedName(key.namespace, key.name) == d.ca.name then WithCASecret(d, r)
    else WithServiceSecret(d, ServiceHostname(Service(key.namespace, key.name)), r)
  }

  /** Reading a secret. */
  lemma MapSecret(v: View, entries: Entries, d: ChainData, g: Progress, p: nat)
    requires Underway(v, entries, d, g, None) && p in entries && entries[p].key.kind == SecretKind
    ensures var key, r := entries[p].key, Lookup(v.objects, entries[p].key);
            && SecretFits(key, d)
            && Underway(v, ReadEntry(v, entries, p), WithSecret(d, key, r), g.(secrets := g.secrets + {key}), None)
  {
    hide Sourced, Complete, Genuine, Has, Waiting, Sound, Lookup, Webhooks, Present, ServiceHostname, NamespacedName, WithCASecret,
      WithServiceSecret, ConfigRead, Serves, Bundles, Known, Pending, SecretsKnown, ConfigsIn, Configs, ServiceAt;
    var key, r := entries[p].key, Lookup(v.objects, entries[p].key);
    WebhookIsListed(v.objects, v.listed, v.ca, entries, g.origins, p);
    TraceRead(v.objects, v.listed, v.ca, entries, g.origins, p, r);
    CANameRead(v.objects, v.ca, g.secrets);
    if NamedAs(key, v.ca) {
      ReadCASecret(v.objects, Refs(v), v.ca, entries, d, g.configs, g.secrets, p);
    } else {
      ReadServiceSecret(v.objects, Refs(v), v.ca, entries, d, g.configs, g.secrets, p);
    }
  }

  // ---- The beginning and the end ----

  function NothingYet(v: View): ChainData {
    ChainData(map[], CA(NamespacedName(v.ca.namespace, v.ca.name), [], [], None))
  }

  function InitialOrigin(v: View, p: nat): Origin {
    if p < |v.listed| then Listed(p) else TheCA
  }

  function InitialOrigins(v: View): Origins {
    map p: nat | 0 <= p <= |v.listed| :: InitialOrigin(v, p)
  }

  function InitialKey(v: View, p: nat): ObjectKey {
    if p < |v.listed| then v.listed[p] else v.ca
  }

  /** One entry for every webhook reference and one for the CA secret. */
  function InitialEntries(v: View): Entries {
    map p: nat | 0 <= p <= |v.listed| :: KeyedObject(InitialKey(v, p), None)
  }

  lemma InitialWaiting(v: View, i: nat)
    requires i < |v.listed|
    ensures Has(InitialOrigins(v), Listed(i)) && Waiting(InitialEntries(v), InitialOrigins(v), i)
  {
    assert InitialOrigins(v)[i] == Listed(i) && Unread(InitialEntries(v), i);
  }

  lemma InitialComplete(v: View)
    ensures Complete(v.objects, v.listed, InitialEntries(v), InitialOrigins(v), None)
  {
    hide InitialEntries, Has, Waiting, Idle;
    HasAt(InitialOrigins(v), |v.listed|);
    forall o: Origin | Genuine(v.objects, v.listed, o)
      ensures Has(InitialOrigins(v), o) || (o.Backing? && Waiting(InitialEntries(v), InitialOrigins(v), o.i))
    {
      if o.TheCA? {
        assert InitialOrigins(v)[|v.listed|] == o;
      } else {
        InitialWaiting(v, o.i);
      }
    }
  }

  lemma InitialTrace(v: View)
    ensures Traced(v.objects, v.listed, v.ca, InitialEntries(v), InitialOrigins(v), None)
  {
    hide ServiceAt, ConfigsIn, Complete, Waiting;
    assert InitialOrigins(v).Keys == InitialEntries(v).Keys;
    InitialComplete(v);
  }

  lemma UnderwayStarts(v: View)
    requires AllWellKinded(v.objects) && Webhooks(v.listed, v.ca) && Sound(v.objects, Refs(v), v.ca)
    ensures Underway(v, InitialEntries(v), NothingYet(v), Progress({}, {}, InitialOrigins(v)), None)
  {
    hide Sound, Traced, ReadingInv;
    InitialTrace(v);
    var entries := InitialEntries(v);
    forall k <- Refs(v) + {v.ca} ensures Present(entries, k) {
      if k in Refs(v) {
        var i :| 0 <= i < |v.listed| && v.listed[i] == k;
        assert entries[i].key == k;
      } else {
        assert entries[|v.listed|].key == k;
      }
    }
    ReadingStarts(v.objects, Refs(v), v.ca, entries);
  }

  ghost function AllManaged(v: View): set<ObjectKey> {
    Managed(v.objects, Refs(v), v.ca)
  }

  /** When everything is read, the chain data is what the objects describe and everything managed is on the list. */
  lemma UnderwayDone(v: View, entries: Entries, d: ChainData, g: Progress)
    requires Underway(v, entries, d, g, None) && forall p <- entries :: !Unread(entries, p)
    ensures Describes(v.objects, Refs(v), v.ca, d)
    ensures forall p <- entries :: entries[p].kobject == Some(Lookup(v.objects, entries[p].key)) && entries[p].key in AllManaged(v)
    ensures forall k <- AllManaged(v) :: Present(entries, k) || (k in Refs(v) && ConfigsIn(v.objects, k) == {})
  {
    hide Sound, Traced, ReadAs, Describes, ConfigsIn, Lookup, Present, Known, AllSecrets;
    ReadingDone(v.objects, Refs(v), v.ca, entries, d, g.configs, g.secrets);
    forall p <- entries ensures entries[p].key in AllManaged(v) {
      assert Known(v.objects, Refs(v), v.ca, g.configs, entries[p].key);
      KnownIsManaged(v, g.configs, entries[p].key);
    }
  }

  lemma KnownIsManaged(v: View, configs: set<Config>, key: ObjectKey)
    requires configs <= Configs(v.objects, Refs(v)) && Known(v.objects, Refs(v), v.ca, configs, key)
    ensures key in AllManaged(v)
  {
    hide ServiceAt, Configs;
  }

  lemma UnderwayIsManaged(v: View, entries: Entries, d: ChainData, g: Progress, p: nat)
    requires Underway(v, entries, d, g, None) && p in entries
    ensures entries[p].key in AllManaged(v)
  {
    hide Sound, Traced, ReadAs, SecretsKnown, Known, Lookup, Configs, ConfigsIn, ServiceAt, AllManaged, Present;
    KnownIsManaged(v, g.configs, entries[p].key);
  }

  /** For verification nothing may be missing. */
  ghost predicate AllFound(v: View, entries: Entries, g: Progress) {
    && (forall p <- entries :: entries[p].kobject.Some? ==> entries[p].key in v.objects)
    && forall i: nat :: i < |v.listed| ==> Waiting(entries, g.origins, i) || v.listed[i] in v.objects
  }

  lemma AllFoundStarts(v: View)
    ensures AllFound(v, InitialEntries(v), Progress({}, {}, InitialOrigins(v)))
  {
    forall i: nat | i < |v.listed| ensures Waiting(InitialEntries(v), InitialOrigins(v), i) {
      InitialWaiting(v, i);
    }
  }

  lemma AllFoundDone(v: View, entries: Entries, d: ChainData, g: Progress)
    requires Underway(v, entries, d, g, None) && forall p <- entries :: !Unread(entries, p)
    requires AllFound(v, entries, g)
    ensures AllManaged(v) <= v.objects.Keys
  {
    hide Underway, Lookup, ConfigsIn, Describes, AllSecrets;
    UnderwayDone(v, entries, d, g);
    forall k <- AllManaged(v) ensures k in v.objects {
      if k in Refs(v) {
        var i :| 0 <= i < |v.listed| && v.listed[i] == k;
        assert !Waiting(entries, g.origins, i);
      } else {
        var p :| p in entries && entries[p].key == k;
      }
    }
  }

  lemma AllFoundRead(v: View, entries: Entries, g: Progress, p: nat)
    requires AllFound(v, entries, g) && Sourced(v.objects, v.listed, v.ca, entries, g.origins) && Webhooks(v.listed, v.ca)
    requires p in entries && entries[p].key in v.objects
    ensures AllFound(v, ReadEntry(v, entries, p), g)
  {
    hide Sourced, Waiting, Lookup, Webhooks;
    WebhookIsListed(v.objects, v.listed, v.ca, entries, g.origins, p);
    SourcedFacts(v, entries, g);
    forall i: nat | i < |v.listed| ensures Waiting(ReadEntry(v, entries, p), g.origins, i) || v.listed[i] in v.objects {
      WaitingAfterRead(entries, g.origins, p, Lookup(v.objects, entries[p].key), i);
    }
  }

  lemma UnderwayFound(v: View, entries: Entries, d: ChainData, g: Progress, p: nat)
    requires Underway(v, entries, d, g, None) && AllFound(v, entries, g)
    requires p in entries && entries[p].key in v.objects
    ensures AllFound(v, ReadEntry(v, entries, p), g)
    ensures AllFound(v, ReadEntry(v, entries, p), g.(secrets := g.secrets + {entries[p].key}))
  {
    hide ReadingInv, Sourced, Complete, Waiting, Webhooks, Lookup, Sound;
    AllFoundRead(v, entries, g, p);
  }

  lemma SourcedFacts(v: View, entries: Entries, g: Progress)
    requires Sourced(v.objects, v.listed, v.ca, entries, g.origins)
    ensures g.origins.Keys == entries.Keys
    ensures forall p <- g.origins, q <- g.origins :: g.origins[p] == g.origins[q] ==> p == q
  {
    hide Genuine, KeyOf, Waiting;
  }

  lemma AllFoundAdded(v: View, entries: Entries, g: Progress, h: Progress, q: nat, o: Origin, key: ObjectKey)
    requires AllFound(v, entries, g) && g.origins.Keys == entries.Keys && q !in entries && !o.Listed?
    requires h.origins == g.origins[q := o]
    ensures AllFound(v, entries[q := KeyedObject(key, None)], h)
  {
    hide Waiting;
    forall i: nat ensures Waiting(entries[q := KeyedObject(key, None)], h.origins, i) <==> Waiting(entries, g.origins, i) {
      OriginAdded(entries, g.origins, q, o, TheCA, key, i);
    }
  }

  lemma AllFoundDropped(v: View, entries: Entries, g: Progress, p: nat)
    requires AllFound(v, entries, g) && g.origins.Keys == entries.Keys && p in entries && !Unread(entries, p)
    ensures AllFound(v, entries - {p}, g.(origins := g.origins - {p}))
  {
    hide Waiting;
    forall i: nat ensures Waiting(entries - {p}, g.origins - {p}, i) <==> Waiting(entries, g.origins, i) {
      OriginDropped(entries, g.origins, p, TheCA, i);
    }
  }

  // ---- Termination ----

  /** Fewer webhooks to read, or as many and fewer objects. */
  predicate Shrinks(before: Entries, after: Entries) {
    || UnreadWebhooks(after) < UnreadWebhooks(before)
    || (UnreadWebhooks(after) == UnreadWebhooks(before) && AllUnread(after) < AllUnread(before))
  }

  /** Reading a webhook may add any number of secrets. */
  lemma ReadingWebhookShrinks(before: Entries, after: Entries, p: nat)
    requires Unread(before, p) && before[p].key.kind != SecretKind
    requires p in after ==> !Unread(after, p) || after[p].key.kind == SecretKind
    requires forall q <- after :: q != p ==> (q in before && after[q] == before[q]) || after[q].key.kind == SecretKind
    ensures Shrinks(before, after)
  {
    assert p in UnreadWebhooks(before) && p !in UnreadWebhooks(after);
  }

  lemma ReadingSecretShrinks(before: Entries, p: nat, r: Resource)
    requires Unread(before, p) && before[p].key.kind == SecretKind
    ensures Shrinks(before, before[p := before[p].(kobject := Some(r))])
  {
    var after := before[p := before[p].(kobject := Some(r))];
    assert forall q :: q in UnreadWebhooks(after) <==> q in UnreadWebhooks(before);
    assert p in AllUnread(before) && p !in AllUnread(after);
  }

  lemma ShrinksTransitive(a: Entries, b: Entries, c: Entries)
    requires Shrinks(a, b) && Shrinks(b, c)
    ensures Shrinks(a, c)
  {
    hide UnreadWebhooks, AllUnread;
  }
}
