/**
 * The steps of the manager: what one of them does to the object map, the chain
 * data and the log, whatever others do meanwhile.
 */
module ManagerSteps {
  import opened Common
  import opened Triple
  import opened ChainOptions
  import opened ChainModel
  import opened ChainFacts
  import opened ChainInvariant
  import opened ChainPrediction
  import opened ChainRest
  import opened ChainRuns
  import opened ChainVerdicts
  import opened Chain
  import opened ApiServer
  import opened Configuration
  import opened Reading
  import opened Writing
  import opened Sharing
  import opened Hosting
  import opened Worklist
  import opened Reconciling
  import opened Delivery

  // ---- Facts about one step of the mapping, whatever the environment does ----

  lemma SafeMore(entries: Entries, d: ChainData, s: Service, bundle: string, pem: PEM, q: nat)
    requires Safe(entries, d) && q !in entries
    ensures Safe(entries[q := KeyedObject(SecretKey(s), None)], WithConfig(d, s, bundle, pem))
    ensures HostedChain(d) ==> HostedChain(WithConfig(d, s, bundle, pem))
  {
    hide ServiceHostname, NamespacedName;
    WithConfigFacts(d, s, bundle, pem);
    var n, e := ServiceHostname(s), WithConfig(d, s, bundle, pem);
    if HostedChain(d) {
      forall m <- e.issued ensures NamesHosts(e.issued[m].certPEM) {
        if m == n {
          assert e.issued[n].certPEM == e.issued[n].(caCertPEM := map[]).certPEM;
        }
      }
    }
  }

  lemma WithConfigKeepsCA(d: ChainData, s: Service, bundle: string, pem: PEM)
    ensures WithConfig(d, s, bundle, pem).ca == d.ca
  {
  }

  lemma WithSecretKeepsCAName(d: ChainData, key: ObjectKey, r: Resource)
    requires SecretFits(key, d)
    ensures WithSecret(d, key, r).ca.name == d.ca.name
  {
  }

  lemma SafeLess(entries: Entries, d: ChainData, p: nat)
    requires Safe(entries, d)
    ensures Safe(entries - {p}, d)
  {
    hide ServiceHostname, NamespacedName;
  }

  /** Nothing but references to secrets is new. */
  predicate AddsSecrets(before: Entries, after: Entries) {
    forall q <- after ::
      || (q in before && after[q] == before[q])
      || (after[q].kobject.None? && after[q].key.kind == SecretKind)
  }

  // ---- and when it leaves the store alone ----

  /** The webhook of its name that counts in an object. */
  ghost predicate ConfigIs(objects: Objects, key: ObjectKey, w: Webhook) {
    var webhooks := WebhooksOf(Lookup(objects, key));
    w.name in ClientConfigs(webhooks) && WebhookAt(objects, Config(key, w.name)) == w
  }

  lemma ConfigIsFacts(objects: Objects, key: ObjectKey, w: Webhook, d: ChainData)
    requires ConfigIs(objects, key, w) && w.service.Some?
    ensures w.name in ClientConfigs(WebhooksOf(Lookup(objects, key)))
    ensures ServiceAt(objects, Config(key, w.name)) == w.service.value
    ensures ChainWithConfig(d, objects, Config(key, w.name))
            == WithConfig(d, w.service.value, CABundleName(KeyString(key), w.name), w.caBundle)
  {
    hide WebhookAt, ClientConfigs, Lookup, WithConfig;
  }

  lemma SecretAdded(entries: Entries, s: Service, q: nat)
    requires q !in entries
    ensures AddsSecrets(entries, entries[q := KeyedObject(SecretKey(s), None)])
  {
  }

  lemma NoSecretsAdded(entries: Entries, p: nat)
    ensures AddsSecrets(entries, entries) && AddsSecrets(entries, entries - {p})
  {
  }

  lemma AddsSecretsTransitive(a: Entries, b: Entries, c: Entries)
    requires AddsSecrets(a, b) && AddsSecrets(b, c)
    ensures AddsSecrets(a, c)
  {
  }

  lemma MappingFacts(v: View, entries: Entries, d: ChainData, g: Progress, i: nat, todo: set<string>)
    requires Mapping(v, entries, d, g, i, todo)
    ensures g.origins.Keys == entries.Keys && i < |v.listed|
  {
    hide ReadingInv, Complete, Genuine, KeyOf, Waiting, Sound, Webhooks, Has, Lookup, Present;
  }

  /** What ClientConfigMap found in an object as it was read. */
  lemma FoundConfig(objects: Objects, key: ObjectKey, c: string)
    requires c in ClientConfigs(WebhooksOf(Lookup(objects, key)))
    ensures var webhooks := WebhooksOf(Lookup(objects, key));
            && ClientConfigs(webhooks)[c] < |webhooks|
            && ConfigIs(objects, key, webhooks[ClientConfigs(webhooks)[c]])
  {
    hide Lookup;
    ClientConfigsAt(WebhooksOf(Lookup(objects, key)));
  }

  lemma OpenedFacts(v: View, entries: Entries, d: ChainData, g: Progress, p: nat, i: nat)
    requires Opened(v, entries, d, g, p, i)
    ensures p in entries && i < |v.listed| && v.listed[i] == entries[p].key
    ensures entries[p].kobject == Some(Lookup(v.objects, entries[p].key))
    ensures g.origins.Keys == entries.Keys
  {
    hide Lookup, ReadingInv, Complete, Genuine, KeyOf, Waiting, Sound, Webhooks;
  }

  lemma InitialEntriesAlike(v: View, w: View)
    requires v.listed == w.listed && v.ca == w.ca
    ensures InitialEntries(v) == InitialEntries(w)
  {
  }

  lemma NothingTracked(v: View, log: seq<Event>)
    requires Webhooks(v.listed, v.ca)
    ensures Tracked(InitialEntries(v), NothingYet(v), log, |log|)
    ensures EntriesHosted(InitialEntries(v)) && HostedChain(NothingYet(v))
  {
    hide ServiceHostname, NamespacedName;
  }

  lemma NothingCarried(v: View)
    requires v.ca.kind == SecretKind
    ensures Carrying(v.listed, InitialEntries(v), NothingYet(v))
  {
    hide Distinguishable, AllCarried;
    if Unmistakable(v.listed) {
      var entries := InitialEntries(v);
      forall p <- entries, q <- entries | p != q && entries[p].key.kind != SecretKind && entries[q].key.kind != SecretKind
        ensures Distinguishable(entries[p].key, entries[q].key)
      {
      }
    }
  }

  /** Nothing but questions was added to the log. */
  predicate Asked(before: seq<Event>, after: seq<Event>) {
    before <= after && forall i :: |before| <= i < |after| ==> after[i].Read?
  }

  lemma AskedIsLonger(before: seq<Event>, after: seq<Event>)
    requires Asked(before, after)
    ensures before <= after
  {
  }

  lemma AskedNothing(log: seq<Event>)
    ensures Asked(log, log)
  {
  }

  lemma AskedTwice(a: seq<Event>, b: seq<Event>, c: seq<Event>)
    requires Asked(a, b) && Asked(b, c)
    ensures Asked(a, c)
  {
  }

  lemma HostedAt(objects: Objects, schedule: seq<Turn>, key: ObjectKey)
    requires HostedWorld(objects, schedule) && key in objects
    ensures HostedResource(objects[key])
  {
    hide HostedTurns;
  }

  lemma InitWellKinded(key: ObjectKey)
    ensures WellKinded(key, InitObject(key)) && InitObject(key).version == 0 && HostedResource(InitObject(key))
  {
  }

  lemma LookupIs(objects: Objects, key: ObjectKey, r: Resource)
    requires r == if key in objects then objects[key] else InitObject(key)
    ensures r == Lookup(objects, key)
  {
  }

  lemma EntryTracked(entries: Entries, d: ChainData, log: seq<Event>, more: seq<Event>, start: nat, p: nat, r: Resource)
    requires Tracked(entries, d, log, start) && p in entries && start <= |log|
    requires more == log + [Read(entries[p].key, AsFound(r))] && WellKinded(entries[p].key, r)
    requires EmptyUnlessFound(entries[p].key, r)
    ensures Tracked(entries[p := KeyedObject(entries[p].key, Some(r))], d, more, start)
  {
    hide ServiceHostname, NamespacedName, Recorded, AsFound, EmptyUnlessFound;
    var next := entries[p := KeyedObject(entries[p].key, Some(r))];
    RecordedLast(more, start, Read(entries[p].key, AsFound(r)));
    forall q <- next | next[q].kobject.Some?
      ensures Recorded(more, start, Read(next[q].key, AsFound(next[q].kobject.value)))
    {
      if q != p {
        RecordedLonger(log, more, start, Read(next[q].key, AsFound(next[q].kobject.value)));
      }
    }
  }

  lemma RecordedLast(log: seq<Event>, start: nat, e: Event)
    requires start < |log| && Last(log) == e
    ensures Recorded(log, start, e)
  {
    assert log[|log| - 1] == e;
  }

  lemma RecordedAfter(before: Entries, after: Entries, log: seq<Event>, start: nat)
    requires EntriesRecorded(before, log, start) && AddsSecrets(before, after)
    ensures EntriesRecorded(after, log, start)
  {
    hide Recorded, EmptyUnlessFound;
  }

  lemma WebhookShrinks(before: Entries, read: Entries, after: Entries, p: nat)
    requires Unread(before, p) && before[p].key.kind != SecretKind && AddsSecrets(read, after)
    requires exists r :: read == before[p := KeyedObject(before[p].key, Some(r))]
    ensures Shrinks(before, after)
  {
    hide Shrinks;
    ReadingWebhookShrinks(before, after, p);
  }

  lemma SafeSecret(entries: Entries, d: ChainData, p: nat)
    requires Safe(entries, d) && p in entries && entries[p].key.kind == SecretKind && entries[p].kobject.Some?
    ensures SecretFits(entries[p].key, d) && entries[p].kobject.value.content.Secret?
  {
    hide ServiceHostname, NamespacedName;
  }

  lemma WithSecretSafe(entries: Entries, d: ChainData, key: ObjectKey, r: Resource)
    requires Safe(entries, d) && SecretFits(key, d)
    ensures Safe(entries, WithSecret(d, key, r))
    ensures HostedChain(d) && HostedResource(r) ==> HostedChain(WithSecret(d, key, r))
  {
    hide ServiceHostname, NamespacedName, NamesHosts;
  }

  lemma HostedEntries(before: Entries, after: Entries)
    requires EntriesHosted(before) && AddsSecrets(before, after)
    ensures EntriesHosted(after)
  {
    hide HostedResource;
  }

  lemma HostedEntry(entries: Entries, p: nat, r: Resource)
    requires EntriesHosted(entries) && p in entries && HostedResource(r)
    ensures EntriesHosted(entries[p := KeyedObject(entries[p].key, Some(r))])
  {
    hide HostedResource;
  }

  /** What one write adds to the log: a question, and an answer to it if something is to be changed. */
  ghost predicate Rewrote(before: seq<Event>, after: seq<Event>, key: ObjectKey, asRead: Resource, mapped: Resource) {
    || after == before
    || (exists found :: after == before + [Read(key, found)])
    || exists version :: after == before + [Read(key, AsFound(asRead)), Wrote(key, AsFound(asRead), mapped.(version := version))]
  }

  /**
   * Every write after the mark replaced the very object that was read before the
   * mark and read again just before writing, or created one that was absent both
   * times.
   */
  ghost predicate NoLostUpdates(log: seq<Event>, start: nat, mark: nat) {
    && mark <= |log|
    && forall i :: mark <= i < |log| && log[i].Wrote? ==>
         && i > mark && log[i - 1] == Read(log[i].key, log[i].replaced)
         && Recorded(log[..mark], start, Read(log[i].key, log[i].replaced))
  }

  lemma RewroteNothingLost(before: seq<Event>, after: seq<Event>, start: nat, mark: nat, key: ObjectKey,
                           asRead: Resource, mapped: Resource)
    requires NoLostUpdates(before, start, mark) && Rewrote(before, after, key, asRead, mapped)
    requires Recorded(before[..mark], start, Read(key, AsFound(asRead)))
    ensures NoLostUpdates(after, start, mark) && before <= after && after[..mark] == before[..mark]
  {
    hide Recorded, AsFound;
    assert after[..mark] == before[..mark];
    forall i | mark <= i < |after| && after[i].Wrote?
      ensures i > mark && after[i - 1] == Read(after[i].key, after[i].replaced)
      ensures Recorded(after[..mark], start, Read(after[i].key, after[i].replaced))
    {
      if i < |before| {
        assert after[i] == before[i];
      }
    }
  }

  /** No write after the mark takes an unexpired certificate out of the bundle of a webhook. */
  ghost predicate NoLostTrust(log: seq<Event>, mark: nat, now: Time) {
    forall i :: mark <= i < |log| && log[i].Wrote? && log[i].replaced.Some? ==>
      KeepsTrust(log[i].replaced.value, log[i].stored, now)
  }

  lemma RewroteKeepsTrust(before: seq<Event>, after: seq<Event>, mark: nat, key: ObjectKey, asRead: Resource, mapped: Resource,
                          now: Time)
    requires NoLostTrust(before, mark, now) && Rewrote(before, after, key, asRead, mapped) && mark <= |before|
    requires KeepsTrust(asRead, mapped, now)
    ensures NoLostTrust(after, mark, now)
  {
    hide KeepsUnexpired;
    forall i | mark <= i < |after| && after[i].Wrote? && after[i].replaced.Some?
      ensures KeepsTrust(after[i].replaced.value, after[i].stored, now)
    {
      if i < |before| {
        assert after[i] == before[i];
      }
    }
  }

  /**
   * Every write after the mark changes nothing but what the manager is there
   * for, in the object it replaces or in an empty one.
   */
  ghost predicate NothingElseWritten(log: seq<Event>, mark: nat, caName: string) {
    forall i :: mark <= i < |log| && log[i].Wrote? ==>
      DiffersOnly(log[i].key, caName, if log[i].replaced.Some? then log[i].replaced.value else InitObject(log[i].key), log[i].stored)
  }

  lemma TouchesAnyVersion(key: ObjectKey, caName: string, before: Resource, after: Resource, version: nat)
    requires DiffersOnly(key, caName, before, after)
    ensures DiffersOnly(key, caName, before, after.(version := version))
  {
    hide LastToServe, OnlyEntries;
  }

  lemma RewroteNothingElse(before: seq<Event>, after: seq<Event>, mark: nat, key: ObjectKey, asRead: Resource, d: ChainData)
    requires NothingElseWritten(before, mark, d.ca.name) && mark <= |before|
    requires Rewrote(before, after, key, asRead, FromChain(key, asRead, d)) && EmptyUnlessFound(key, asRead)
    ensures NothingElseWritten(after, mark, d.ca.name)
  {
    hide DiffersOnly, FromChain, InitObject;
    FromChainDiffersOnly(key, asRead, d);
    forall i | mark <= i < |after| && after[i].Wrote?
      ensures DiffersOnly(after[i].key, d.ca.name,
                      if after[i].replaced.Some? then after[i].replaced.value else InitObject(after[i].key), after[i].stored)
    {
      if i < |before| {
        assert after[i] == before[i];
      } else {
        TouchesAnyVersion(key, d.ca.name, asRead, FromChain(key, asRead, d), after[i].stored.version);
      }
    }
  }

  /** A secret that the manager creates carries its annotation, and no more than one pair of entries. */
  lemma CreatedSecret(log: seq<Event>, mark: nat, caName: string, i: nat)
    requires NothingElseWritten(log, mark, caName) && mark <= i < |log|
    requires log[i].Wrote? && log[i].replaced.None? && log[i].key.kind == SecretKind
    ensures var r, key := log[i].stored, log[i].key;
            && r.annotations == map["kubevirt.io/kube-admission-webhook" := ""] && r.content.Secret?
            && (if key.namespace + "/" + key.name == caName then
                  r.content.secretType == Opaque && r.content.data.Keys == {"ca.key", "ca.crt"}
                else r.content.data.Keys == {} || (r.content.secretType == TLS && r.content.data.Keys == {"tls.key", "tls.crt"}))
  {
  }

  lemma NothingElseYet(log: seq<Event>, caName: string)
    ensures NothingElseWritten(log, |log|, caName)
  {
  }

  /** One more write, seen from all three sides. */
  lemma RewroteSafely(before: seq<Event>, after: seq<Event>, start: nat, mark: nat, listed: seq<ObjectKey>, entries: Entries, p: nat,
                      d: ChainData, e: ChainData, now: Time)
    requires p in entries && entries[p].kobject.Some?
    requires var key, r := entries[p].key, entries[p].kobject.value;
             && Rewrote(before, after, key, r, FromChain(key, r, e)) && mark <= |before|
             && Recorded(before[..mark], start, Read(key, AsFound(r))) && EmptyUnlessFound(key, r)
    requires NoLostUpdates(before, start, mark) && NothingElseWritten(before, mark, e.ca.name)
    requires Unmistakable(listed) ==> NoLostTrust(before, mark, now)
    requires Carrying(listed, entries, d) && TrustKept(d, e, now) && KindsFit(entries)
    ensures NoLostUpdates(after, start, mark) && NothingElseWritten(after, mark, e.ca.name)
    ensures Unmistakable(listed) ==> NoLostTrust(after, mark, now)
    ensures before <= after && after[..mark] == before[..mark]
  {
    hide Rewrote, Recorded, EmptyUnlessFound, NoLostUpdates, NothingElseWritten, NoLostTrust, Unmistakable, Carrying, TrustKept, KindsFit,
      FromChain, AsFound, KeepsTrust;
    var key, r := entries[p].key, entries[p].kobject.value;
    RewroteNothingLost(before, after, start, mark, key, r, FromChain(key, r, e));
    RewroteNothingElse(before, after, mark, key, r, e);
    if Unmistakable(listed) {
      EntryKeepsTrust(listed, entries, p, d, e, now);
      RewroteKeepsTrust(before, after, mark, key, r, FromChain(key, r, e), now);
    }
  }

  lemma StepKeepsCAName(o: Options, d: ChainData, draw: Draw, now: Time)
    ensures Step(o, d, draw, now).ca.name == d.ca.name
  {
    hide Updated;
    ShapeKept(o, Decoded(d), draw, now);
  }

  function EntryKeys(entries: Entries, ps: set<nat>): set<ObjectKey> {
    set p | p in ps && p in entries :: entries[p].key
  }

  lemma EntryKeysMore(entries: Entries, ps: set<nat>, p: nat)
    requires p in entries
    ensures EntryKeys(entries, ps + {p}) == EntryKeys(entries, ps) + {entries[p].key}
  {
  }

  ghost predicate ReadFrom(objects: Objects, entries: Entries) {
    forall p <- entries :: entries[p].kobject == Some(Lookup(objects, entries[p].key))
  }

  ghost predicate AllUpToDate(objects: Objects, entries: Entries, d: ChainData) {
    forall p <- entries :: UpToDate(objects, entries[p].key, d)
  }

  /** So far no object was to be changed twice. */
  ghost predicate NoneDoubled(objects: Objects, entries: Entries, ps: set<nat>, d: ChainData) {
    forall p <- ps, q <- ps :: p != q && p in entries && q in entries && entries[p].key == entries[q].key ==>
      UpToDate(objects, entries[p].key, d)
  }

  /** Writing entry p after the entries ps. */
  lemma WriteEntry(objects: Objects, entries: Entries, s: Store, version: nat, ps: set<nat>, p: nat, d: ChainData)
    requires p in entries && p !in ps && ps <= entries.Keys
    requires Written(objects, s.objects, version, EntryKeys(entries, ps), d) && version <= s.lastVersion
    requires forall k <- objects :: 0 < objects[k].version <= version
    requires NoneDoubled(objects, entries, ps, d)
    ensures var (ok, t) := WriteOne(s, entries[p].key, Lookup(objects, entries[p].key), d);
            && (ok ==> Written(objects, t.objects, version, EntryKeys(entries, ps + {p}), d)
                       && NoneDoubled(objects, entries, ps + {p}, d))
            && (!ok ==> Doubled(objects, entries, d))
            && s.lastVersion <= t.lastVersion
            && (UpToDate(objects, entries[p].key, d) ==> t == s)
  {
    hide Written, UpToDate, WriteOne, Lookup;
    WriteNext(objects, s, version, EntryKeys(entries, ps), entries[p].key, d);
    EntryKeysMore(entries, ps, p);
  }

  lemma NothingWritten(objects: Objects, version: nat, entries: Entries, d: ChainData)
    ensures Written(objects, objects, version, EntryKeys(entries, {}), d) && NoneDoubled(objects, entries, {}, d)
  {
  }

  predicate KindsFit(entries: Entries) {
    forall p <- entries :: entries[p].kobject.Some? ==> WellKinded(entries[p].key, entries[p].kobject.value)
  }

  lemma SafeKindsFit(entries: Entries, d: ChainData)
    requires Safe(entries, d)
    ensures KindsFit(entries)
  {
    hide ServiceHostname, NamespacedName, WellKinded;
  }

  lemma DoneWriting(objects: Objects, entries: Entries, d: ChainData)
    requires NoneDoubled(objects, entries, entries.Keys, d)
    ensures !Doubled(objects, entries, d)
  {
    hide UpToDate;
  }

  lemma ReadCanBeUpdated(v: View, entries: Entries, d: ChainData, g: Progress, o: Options, now: Time)
    requires Underway(v, entries, d, g, None) && forall p <- entries :: !Unread(entries, p)
    ensures Describes(v.objects, Refs(v), v.ca, d) && ReadFrom(v.objects, entries)
    ensures Succeeds(o, Decoded(d), now) && Decoded(d).issued.Keys == d.issued.Keys
  {
    hide Underway, Describes, AllManaged, Lookup, ActionAt, AllNamed;
    UnderwayDone(v, entries, d, g);
    NamedAndHosted(v.objects, Refs(v), v.ca, d);
    DecodedShape(d);
  }

  lemma NothingLost(log: seq<Event>, start: nat)
    ensures NoLostUpdates(log, start, |log|)
  {
  }

  /**
   * Writing back while nobody interferes: it succeeds unless some object to be
   * changed is on the list twice, and then exactly the objects that were not up
   * to date were replaced or created.
   */
  ghost predicate WrittenUndisturbed(v: View, version: nat, next: Objects, e: ChainData, ok: bool) {
    && (ok <==> !Clash(v.objects, v.listed, v.ca, e))
    && (ok ==> Written(v.objects, next, version, AllManaged(v), e))
  }

  ghost predicate NothingToWrite(v: View, e: ChainData) {
    forall k <- AllManaged(v) :: UpToDate(v.objects, k, e)
  }

  lemma WritingDone(v: View, entries: Entries, d: ChainData, g: Progress, version: nat, next: Objects, e: ChainData, ok: bool)
    requires Underway(v, entries, d, g, None) && forall p <- entries :: !Unread(entries, p)
    requires ok <==> !Doubled(v.objects, entries, e)
    requires ok ==> Written(v.objects, next, version, EntryKeys(entries, entries.Keys), e)
    ensures WrittenUndisturbed(v, version, next, e, ok)
    ensures NothingToWrite(v, e) ==> AllUpToDate(v.objects, entries, e)
  {
    hide Doubled, Clash, UpToDate, AllManaged, Lookup, Describes, ConfigsIn, ReadingInv, Sound, Traced;
    UnderwayDone(v, entries, d, g);
    DoubledIsClash(v.objects, v.listed, v.ca, entries, g.origins, e);
    if ok {
      forall k <- AllManaged(v) ensures WrittenAt(v.objects, next, version, k, e) {
        if Present(entries, k) {
          var p :| p in entries && entries[p].key == k;
          assert k in EntryKeys(entries, entries.Keys);
        } else {
          IdleUntouched(v, entries, next, version, e, k);
        }
      }
    }
  }

  lemma IdleUntouched(v: View, entries: Entries, next: Objects, version: nat, e: ChainData, k: ObjectKey)
    requires AllWellKinded(v.objects) && Webhooks(v.listed, v.ca) && k in Refs(v) && ConfigsIn(v.objects, k) == {}
    requires Written(v.objects, next, version, EntryKeys(entries, entries.Keys), e) && !Present(entries, k)
    ensures WrittenAt(v.objects, next, version, k, e)
  {
    hide UpToDate, ConfigsIn, Lookup;
    LookupWellKinded(v.objects, k);
    NoConfigsUpToDate(v.objects, k, e);
    assert k !in EntryKeys(entries, entries.Keys);
  }

  // ---- What undisturbed reconciles achieve ----

  /** What the store describes passes strict verification. */
  ghost predicate Verified(v: View, now: Time) {
    exists d :: Describes(v.objects, Refs(v), v.ca, d) && StrictlyVerified(v.objects, Refs(v), v.ca, d, now)
  }

  lemma MissingFails(v: View, now: Time)
    requires !(AllManaged(v) <= v.objects.Keys)
    ensures !Verified(v, now) && !AllTrust(v.objects, Refs(v), v.ca, now)
  {
    hide Describes, Managed, Verifies, Decoded, AllTrust;
    TrustNeedsAll(v.objects, Refs(v), v.ca, now);
  }

  lemma VerifiedBy(v: View, d: ChainData, now: Time)
    requires Describes(v.objects, Refs(v), v.ca, d)
    ensures Verified(v, now) <==> StrictlyVerified(v.objects, Refs(v), v.ca, d, now)
    ensures Verified(v, now) <==> AllTrust(v.objects, Refs(v), v.ca, now)
  {
    hide Describes, StrictlyVerified, AllTrust;
    VerifiedMeans(v.objects, Refs(v), v.ca, d, now);
    if e :| Describes(v.objects, Refs(v), v.ca, e) && StrictlyVerified(v.objects, Refs(v), v.ca, e, now) {
      DescribesOne(v.objects, Refs(v), v.ca, d, e);
    }
  }

  /** A store that fails verification passes it afterwards, provided the webhooks to manage are there. */
  ghost predicate Repairs(v: View, next: Objects, o: Options, now: Time) {
    Workable(o) && !Verified(v, now) ==> (Verified(v.(objects := next), now) <==> Refs(v) <= v.objects.Keys)
  }

  lemma ReconcileRepairs(v: View, version: nat, next: Objects, o: Options, d: ChainData, draw: Draw, now: Time)
    requires AllWellKinded(v.objects) && Sound(v.objects, Refs(v), v.ca) && Describes(v.objects, Refs(v), v.ca, d) && 0 <= now
    requires Written(v.objects, next, version, AllManaged(v), Step(o, d, draw, now))
    ensures Repairs(v, next, o, now)
  {
    hide AllWellKinded, Sound, Describes, Written, Step, Managed, StrictlyVerified, Workable;
    VerifiedBy(v, d, now);
    assert Refs(v.(objects := next)) == Refs(v);
    if Workable(o) && !Verified(v, now) {
      EndToEndRepair(v.objects, next, version, Refs(v), v.ca, o, d, draw, now);
    }
  }

  /** The store holds data that verify and whose deadlines all lie ahead. */
  ghost predicate AtRest(v: View, o: Options, e: ChainData, now: Time) {
    Holding(v.objects, Refs(v), v.ca, e) && Verifies(e, now) && 0 <= now < NextDeadline(o, e)
  }

  lemma ReconcileRests(v: View, o: Options, e: ChainData, d: ChainData, draw: Draw, now: Time)
    requires AtRest(v, o, e, now) && Describes(v.objects, Refs(v), v.ca, d)
    ensures NothingToWrite(v, Step(o, d, draw, now)) && !Clash(v.objects, v.listed, v.ca, Step(o, d, draw, now))
    ensures StepAt(o, d, draw, now) == NextDeadline(o, e)
  {
    hide Sound, Describes, Updated, UpdateAt, Managed, UpToDate, NextDeadline, Strip, Decoded, Verifies;
    DescribesOne(v.objects, Refs(v), v.ca, d, Strip(e));
    HoldingDecodes(v.objects, Refs(v), v.ca, e);
    VerifiedRests(o, e, draw, now);
    NothingToWriteNoClash(v, e);
  }

  lemma Achieved(v: View, version: nat, next: Objects, o: Options, d: ChainData, draw: Draw, now: Time, ok: bool)
    requires AllWellKinded(v.objects) && Sound(v.objects, Refs(v), v.ca) && Describes(v.objects, Refs(v), v.ca, d) && 0 <= now
    requires WrittenUndisturbed(v, version, next, Step(o, d, draw, now), ok)
    ensures ok ==> Repairs(v, next, o, now)
    ensures forall e :: AtRest(v, o, e, now) ==>
              ok && NothingToWrite(v, Step(o, d, draw, now)) && StepAt(o, d, draw, now) == NextDeadline(o, e)
  {
    hide AllWellKinded, Sound, Describes, Written, Step, StepAt, AllManaged, Repairs, AtRest, NothingToWrite, Clash, NextDeadline;
    if ok {
      ReconcileRepairs(v, version, next, o, d, draw, now);
    }
    forall e | AtRest(v, o, e, now)
      ensures ok && NothingToWrite(v, Step(o, d, draw, now)) && StepAt(o, d, draw, now) == NextDeadline(o, e)
    {
      ReconcileRests(v, o, e, d, draw, now);
    }
  }

  lemma AtRestIsSound(v: View)
    ensures forall o, e, now :: AtRest(v, o, e, now) ==> Sound(v.objects, Refs(v), v.ca)
  {
    hide Sound, Describes, Coherent, UpToDate, Managed, Verifies;
  }

  lemma NothingToWriteNoClash(v: View, e: ChainData)
    requires NothingToWrite(v, e)
    ensures !Clash(v.objects, v.listed, v.ca, e)
  {
    hide UpToDate, ServiceAt, ConfigsIn;
    forall o: Origin | Genuine(v.objects, v.listed, o) ensures KeyOf(v.objects, v.listed, v.ca, o) in AllManaged(v) {
      OriginIsManaged(v, o);
    }
  }

  lemma OriginIsManaged(v: View, o: Origin)
    requires Genuine(v.objects, v.listed, o)
    ensures KeyOf(v.objects, v.listed, v.ca, o) in AllManaged(v)
  {
    hide ServiceAt, ConfigsIn;
    if o.Backing? {
      assert v.listed[o.i] in Refs(v);
      assert Config(v.listed[o.i], o.name) in Configs(v.objects, Refs(v));
    }
  }

  // ---- One write ----

  lemma NothingApplied(s: Store)
    ensures ApplyAll(s, []) == s
  {
  }

  lemma CurrentHosted(entries: Entries, p: nat, d: ChainData, r: Resource)
    requires p in entries && EntriesHosted(entries) && HostedChain(d)
    requires HostedResource(r) || entries[p].kobject == Some(r)
    ensures HostedResource(FromChain(entries[p].key, r, d))
    ensures EntriesHosted(entries[p := KeyedObject(entries[p].key, Some(FromChain(entries[p].key, r, d)))])
  {
    hide FromChain, HostedChain, HostedResource;
    HostedFromChain(entries[p].key, r, d);
  }

  /** An object found as it was read, and then under the same version, is still the one that was read. */
  lemma FoundUnchanged(s: Store, ops: seq<Operation>, key: ObjectKey, r: Resource)
    requires ValidStore(s) && (key in s.objects ==> s.objects[key] == r)
    ensures var t := ApplyAll(s, ops);
            key in s.objects && key in t.objects && t.objects[key].version == r.version ==>
              t.objects[key] == r && AsFound(r) == Some(r)
    ensures r.version == 0 ==> AsFound(r) == None
  {
    hide ApplyAll;
    if key in s.objects {
      SameVersionUntouched(s, ops, key);
    }
  }

  lemma NothingDistrusted(log: seq<Event>, now: Time)
    ensures NoLostTrust(log, |log|, now)
  {
  }

  lemma EntryKeepsTrust(listed: seq<ObjectKey>, entries: Entries, p: nat, d: ChainData, e: ChainData, now: Time)
    requires Unmistakable(listed) && Carrying(listed, entries, d) && TrustKept(d, e, now) && KindsFit(entries)
    requires p in entries && entries[p].kobject.Some?
    ensures KeepsTrust(entries[p].kobject.value, FromChain(entries[p].key, entries[p].kobject.value, e), now)
  {
    hide AllCarried, TrustKept, FromChain, KeepsTrust, Unmistakable, Distinguishable;
    MappingKeepsTrust(entries[p].key, entries[p].kobject.value, d, e, now);
  }

  lemma HostedReadingWorld(entries: Entries, d: ChainData, objects: Objects, schedule: seq<Turn>)
    requires HostedReading(entries, d, objects, schedule)
    ensures HostedWorld(objects, schedule)
  {
  }

  // ---- Panics ----

  lemma PanicsAreNameless(o: Options, d: ChainData, order: seq<Visit>, draw: Draw, now: Time)
    requires VisitsAll(Decoded(d), order)
    ensures UpdateInOrder(o, Decoded(d), order, draw, now).Panicked? ==> MayPanic(o, Decoded(d), now)
    ensures MustPanic(o, Decoded(d), now) ==> UpdateInOrder(o, Decoded(d), order, draw, now).Panicked?
    ensures UpdateInOrder(o, Decoded(d), order, draw, now).Error? ==> !Succeeds(o, Decoded(d), now)
  {
    hide Decoded, VerdictInOrder, HasNameless, FindRotationDeadlineForCA, Succeeds, VisitsAll, Verifies, Updated,
      MustPanic;
    UpdatePanics(o, Decoded(d), draw, now);
    VisitsAllVisitable(Decoded(d), order);
    TrustedInAnyOrder(Decoded(d), order, now);
  }

  lemma RestNeverPanics(v: View, o: Options, d: ChainData, now: Time)
    requires Describes(v.objects, Refs(v), v.ca, d) && MayPanic(o, Decoded(d), now)
    ensures forall e :: !AtRest(v, o, e, now)
  {
    hide Describes, Sound, Coherent, UpToDate, Managed, Verifies, NextDeadline, Strip, Decoded, FindRotationDeadlineForCA, Nameless;
    forall e ensures !AtRest(v, o, e, now) {
      if AtRest(v, o, e, now) {
        DescribesOne(v.objects, Refs(v), v.ca, d, Strip(e));
        HoldingDecodes(v.objects, Refs(v), v.ca, e);
        var n, b :| Nameless(e, n, b);
        NamelessFails(e, n, b, now);
      }
    }
  }

  // ---- Shared services ----

  /**
   * An undisturbed reconcile fails only if something is shared, and if it
   * rotates, it fails whenever something is.
   */
  ghost predicate SucceedsUnshared(v: View, o: Options, d: ChainData, now: Time, ok: bool) {
    && (!Shares(v.objects, v.listed) ==> ok)
    && (ActionAt(o, Decoded(d), now) != Keep ==> (ok <==> !Shares(v.objects, v.listed)))
  }

  lemma UnsharedSucceeds(v: View, version: nat, next: Objects, o: Options, d: ChainData, draw: Draw, now: Time, ok: bool,
                         from: KeyId, to: KeyId)
    requires AllWellKinded(v.objects) && Webhooks(v.listed, v.ca) && Sound(v.objects, Refs(v), v.ca)
    requires Describes(v.objects, Refs(v), v.ca, d) && 0 <= now
    requires WrittenUndisturbed(v, version, next, Step(o, d, draw, now), ok)
    requires Drawn(draw, ActionAt(o, Decoded(d), now), d.issued.Keys, from, to)
    ensures StoredKeysBelow(d, from) ==> SucceedsUnshared(v, o, d, now, ok)
  {
    hide AllWellKinded, Sound, Describes, Written, ActionAt, AllManaged, Clash, Updated, Decoded, Webhooks, StoredKeysBelow, Drawn,
      Shares, NewLeafKeys;
    if Clash(v.objects, v.listed, v.ca, Step(o, d, draw, now)) {
      ClashShares(v.objects, v.listed, v.ca, Step(o, d, draw, now));
    }
    if StoredKeysBelow(d, from) && ActionAt(o, Decoded(d), now) != Keep {
      DrawnLeavesAreNew(d, draw, ActionAt(o, Decoded(d), now), from, to);
      RotationClashes(v.objects, v.listed, v.ca, o, d, draw, now);
    }
  }

  // ---- Reconciling undisturbed ----

  /** What has been shown of the three steps of a reconcile. */
  lemma ReconciledUndisturbed(v: View, entries: Entries, o: Options, d: ChainData, g: Progress, draw: Draw, now: Time,
                              version: nat, next: Objects, ok: bool, from: KeyId, to: KeyId)
    requires AllWellKinded(v.objects) && Webhooks(v.listed, v.ca) && Sound(v.objects, Refs(v), v.ca) && 0 <= now
    requires Underway(v, entries, d, g, None) && forall p <- entries :: !Unread(entries, p)
    requires ok <==> !Doubled(v.objects, entries, Step(o, d, draw, now))
    requires ok ==> Written(v.objects, next, version, EntryKeys(entries, entries.Keys), Step(o, d, draw, now))
    requires Drawn(draw, ActionAt(o, Decoded(d), now), d.issued.Keys, from, to)
    ensures var e := Step(o, d, draw, now);
            && WrittenUndisturbed(v, version, next, e, ok)
            && (NothingToWrite(v, e) ==> AllUpToDate(v.objects, entries, e))
            && (ok ==> Repairs(v, next, o, now))
            && (StoredKeysBelow(d, from) ==> SucceedsUnshared(v, o, d, now, ok))
    ensures forall e :: AtRest(v, o, e, now) ==>
              ok && NothingToWrite(v, Step(o, d, draw, now)) && StepAt(o, d, draw, now) == NextDeadline(o, e)
  {
    hide *;
    ReadCanBeUpdated(v, entries, d, g, o, now);
    WritingDone(v, entries, d, g, version, next, Step(o, d, draw, now), ok);
    Achieved(v, version, next, o, d, draw, now, ok);
    UnsharedSucceeds(v, version, next, o, d, draw, now, ok, from, to);
  }
}
