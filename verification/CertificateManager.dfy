/**
 * The manager (pkg/certificate/manager.go and configuration.go): it reads the
 * chain data of its webhooks from the API server, updates or verifies them, and
 * writes them back.
 */
module CertificateManager {
  import opened Common
  import opened Triple
  import opened ChainOptions
  import opened ChainModel
  import opened ChainFacts
  import opened ChainInvariant
  import opened ChainPrediction
  import opened ChainRest
  import opened ChainRuns
  import opened ChainVerdicts
  import opened Chain
  import opened ApiServer
  import opened Configuration
  import opened Reading
  import opened Writing
  import opened Sharing
  import opened Hosting
  import opened Worklist
  import opened ManagerSteps
  import opened Reconciling
  import opened Delivery

  datatype WebhookType = Mutating | Validating

  datatype WebhookReference = WebhookReference(webhookType: WebhookType, name: string)

  function ReferenceKey(w: WebhookReference): ObjectKey {
    ObjectKey(if w.webhookType == Mutating then MutatingWebhook else ValidatingWebhook, "", w.name)
  }

  function ReferenceKeys(webhooks: seq<WebhookReference>): seq<ObjectKey> {
    seq(|webhooks|, i requires 0 <= i < |webhooks| => ReferenceKey(webhooks[i]))
  }

  /** The object map of one reconcile. Its keys are pointers, which are new each time. */
  class ObjectMap {
    var entries: Entries
    var next: nat

    constructor ()
      ensures entries == map[] && next == 0
    {
      entries, next := map[], 0;
    }

    ghost predicate Valid()
      reads this
    {
      forall p <- entries :: p < next
    }

    /** A lookup under a key made for it never hits, so this always adds an entry. */
    method Refer(key: ObjectKey) returns (p: nat)
      requires Valid()
      modifies this
      ensures Valid() && p == old(next) && next == old(next) + 1 && p !in old(entries)
      ensures entries == old(entries)[p := KeyedObject(key, None)]
    {
      p := next;
      next := next + 1;
      if p !in entries {
        entries := entries[p := KeyedObject(key, None)];
      }
    }
  }

  /** Any subset: what a range over a map makes of the entries added meanwhile. */
  method SomeOrAll<T>(s: set<T>) returns (r: set<T>)
    ensures r <= s
  {
    r := {};
    var todo := s;
    while todo != {}
      invariant todo <= s && r <= s
      decreases todo
    {
      var e := AnyOf(todo);
      todo := todo - {e};
      if * {
        r := r + {e};
      }
    }
  }

  /** The positions of the webhooks that name a service, the last one for each name. */
  method ClientConfigMap(webhooks: seq<Webhook>) returns (at: map<string, nat>)
    ensures at == ClientConfigs(webhooks)
    ensures forall i :: 0 <= i < |webhooks| && webhooks[i].service.Some? ==> webhooks[i].name in at && i <= at[webhooks[i].name]
    ensures forall c <- at :: LastToServe(webhooks, at[c]) && webhooks[at[c]].name == c
  {
    ClientConfigsComplete(webhooks);
    ClientConfigsAt(webhooks);
    at := map[];
    for i := 0 to |webhooks|
      invariant at == ClientConfigs(webhooks[..i])
    {
      assert webhooks[..i + 1][..i] == webhooks[..i];
      if webhooks[i].service.None? {
        continue;
      }
      at := at[webhooks[i].name := i];
    }
    assert webhooks[..|webhooks|] == webhooks;
  }

  class Manager {
    const name: string
    const namespace: string
    const client: Server
    const options: Options
    const webhooks: seq<WebhookReference>
    const keys: KeySource
    var verifying: bool

    constructor (name: string, namespace: string, client: Server, options: Options, webhooks: seq<WebhookReference>,
                 keys: KeySource)
      ensures this.name == name && this.namespace == namespace && this.client == client && this.options == options
      ensures this.webhooks == webhooks && this.keys == keys && !verifying
    {
      this.name := name;
      this.namespace := namespace;
      this.client := client;
      this.options := options;
      this.webhooks := webhooks;
      this.keys := keys;
      this.verifying := false;
    }

    function CAKey(): ObjectKey {
      ObjectKey(SecretKind, namespace, name + "-ca")
    }

    function CAName(): string {
      namespace + "/" + name + "-ca"
    }

    function Listed(): seq<ObjectKey> {
      ReferenceKeys(webhooks)
    }

    ghost function ViewOf(objects: Objects): View {
      View(objects, Listed(), CAKey())
    }

    ghost predicate Apart(objects: ObjectMap, data: CertificateChainData) {
      && data as object != objects && data as object != client && data as object != keys
      && objects as object != client && objects as object != keys && client as object != keys
    }

    /** Reading is going on: the object map, the chain data and the log fit each other, whatever others do. */
    ghost predicate Going(objects: ObjectMap, data: CertificateChainData, start: nat, hosted: bool)
      reads objects, data, client
    {
      && client.Valid() && objects.Valid() && start <= |client.log|
      && Tracked(objects.entries, data.Value(), client.log, start) && data.ca.name == CAName()
      && (hosted ==> HostedReading(objects.entries, data.Value(), client.objects, client.schedule))
    }

    ghost predicate AllCarrying(objects: ObjectMap, data: CertificateChainData)
      reads objects, data
    {
      Carrying(Listed(), objects.entries, data.Value())
    }

    /** Nobody else has changed the store so far, or will. */
    ghost predicate Calm(objects: ObjectMap, data: CertificateChainData, v: View, g: Progress)
      reads objects, data, client
    {
      Quiet(client.schedule) && client.objects == v.objects && Underway(v, objects.entries, data.Value(), g, None)
    }

    /** What every call to the server leaves as it was. */
    twostate predicate Undone(hosted: bool)
      reads client
    {
      && client.Valid() && Asked(old(client.log), client.log)
      && (hosted ==> HostedWorld(client.objects, client.schedule))
      && (old(Quiet(client.schedule)) ==> Quiet(client.schedule) && client.State() == old(client.State()))
    }

    // ---- Reading ----

    method InitObjects(objects: ObjectMap)
      requires objects.entries == map[] && objects.next == 0
      modifies objects
      ensures objects.Valid() && objects.entries == InitialEntries(ViewOf(map[]))
      ensures forall p: nat :: p in objects.entries <==> p <= |webhooks|
      ensures forall p: nat :: p < |webhooks| ==>
                objects.entries[p] == KeyedObject(
                  ObjectKey(match webhooks[p].webhookType case Mutating => MutatingWebhook case Validating => ValidatingWebhook,
                            "", webhooks[p].name), None)
      ensures objects.entries[|webhooks|] == KeyedObject(ObjectKey(SecretKind, namespace, name + "-ca"), None)
    {
      ghost var v := ViewOf(map[]);
      for i := 0 to |webhooks|
        invariant objects.Valid() && objects.next == i
        invariant objects.entries == map p: nat | 0 <= p < i :: KeyedObject(InitialKey(v, p), None)
      {
        var p := objects.Refer(ReferenceKey(webhooks[i]));
      }
      var p := objects.Refer(CAKey());
    }

    method JoinIssue(data: CertificateChainData, service: Service, bundle: string, pem: PEM)
      modifies data
      ensures data.Value() == WithConfig(old(data.Value()), service, bundle, pem)
    {
      var n := ServiceHostname(service);
      if n !in data.issued {
        data.issued := data.issued[n := NewCertificateIssue(service)];
      }
      data.issued := data.issued[n := data.issued[n].(caCertPEM := data.issued[n].caCertPEM[bundle := pem])];
    }

    /** One turn of the loop in MapWebhookToChain. */
    method MapClientConfig(p: nat, objects: ObjectMap, data: CertificateChainData, key: ObjectKey, w: Webhook, ghost v: View,
                           ghost calm: bool, ghost g: Progress, ghost i: nat, ghost todo: set<string>)
      returns (ghost h: Progress)
      requires objects.Valid() && Apart(objects, data) && Safe(objects.entries, data.Value()) && w.service.Some?
      requires p in objects.entries && objects.entries[p].key == key && key.kind != SecretKind
      requires CarryingBut(Listed(), objects.entries, data.Value(), p)
      requires calm ==> Mapping(v, objects.entries, data.Value(), g, i, todo) && key == v.listed[i] && w.name in todo
      requires calm ==> ConfigIs(v.objects, key, w)
      modifies objects, data
      ensures objects.Valid() && Safe(objects.entries, data.Value())
      ensures p in objects.entries && objects.entries[p] == old(objects.entries)[p]
      ensures data.Value() == WithConfig(old(data.Value()), w.service.value, CABundleName(KeyString(key), w.name), w.caBundle)
      ensures CarryingBut(Listed(), objects.entries, data.Value(), p)
      ensures old(HostedChain(data.Value())) ==> HostedChain(data.Value())
      ensures AddsSecrets(old(objects.entries), objects.entries)
      ensures calm ==> Mapping(v, objects.entries, data.Value(), h, i, todo - {w.name})
      ensures calm && AllFound(v, old(objects.entries), g) ==> AllFound(v, objects.entries, h)
    {
      hide *;
      h := g;
      ghost var before, d := objects.entries, data.Value();
      JoinIssue(data, w.service.value, CABundleName(KeyString(key), w.name), w.caBundle);
      var q := objects.Refer(SecretKey(w.service.value));
      SafeMore(before, d, w.service.value, CABundleName(KeyString(key), w.name), w.caBundle, q);
      SecretAdded(before, w.service.value, q);
      CarryingMore(Listed(), before, d, p, w.service.value, w.name, w.caBundle, q);
      if calm {
        var c := Config(key, w.name);
        ConfigIsFacts(v.objects, key, w, d);
        MappingFacts(v, before, d, g, i, todo);
        MapConfig(v, before, d, g, i, todo, w.name, q);
        h := Progress(g.configs + {c}, g.secrets, g.origins[q := Backing(i, w.name)]);
        if AllFound(v, before, g) {
          AllFoundAdded(v, before, g, h, q, Backing(i, w.name), SecretKey(w.service.value));
        }
      }
    }

    /**
     * Adds every client configuration to the issue of its service and a
     * reference to the secret of that service to the object map; takes a webhook
     * without client configurations off the map.
     */
    method MapWebhookToChain(p: nat, objects: ObjectMap, data: CertificateChainData, ghost v: View, ghost calm: bool,
                             ghost g: Progress, ghost i: nat)
      returns (ghost h: Progress)
      requires objects.Valid() && Apart(objects, data) && Safe(objects.entries, data.Value())
      requires p in objects.entries && objects.entries[p].key.kind != SecretKind && objects.entries[p].kobject.Some?
      requires CarryingBut(Listed(), objects.entries, data.Value(), p)
      requires calm ==> Opened(v, objects.entries, data.Value(), g, p, i)
      modifies objects, data
      ensures objects.Valid() && Safe(objects.entries, data.Value())
      ensures Carrying(Listed(), objects.entries, data.Value())
      ensures old(HostedChain(data.Value())) ==> HostedChain(data.Value())
      ensures AddsSecrets(old(objects.entries), objects.entries) && data.ca.name == old(data.ca.name)
      ensures calm ==> Underway(v, objects.entries, data.Value(), h, None)
      ensures calm && AllFound(v, old(objects.entries), g) ==> AllFound(v, objects.entries, h)
    {
      hide Safe, HostedChain, Opened, Mapping, Underway, AllFound, ClientConfigs, Lookup, AddsSecrets, ConfigIs, CarryingBut,
        Carrying, MappedSoFar, WithConfig;
      h := g;
      var key := objects.entries[p].key;
      var webhooks := WebhooksOf(objects.entries[p].kobject.value);
      var at := ClientConfigMap(webhooks);
      ghost var before := objects.entries;
      if calm {
        OpenedFacts(v, before, data.Value(), g, p, i);
      }
      if |at| <= 0 {
        objects.entries := objects.entries - {p};
        SafeLess(before, data.Value(), p);
        NoSecretsAdded(before, p);
        CarryingLess(Listed(), before, data.Value(), p);
        if calm {
          DropIdleWebhook(v, before, data.Value(), g, p, i);
          h := g.(origins := g.origins - {p});
          if AllFound(v, before, g) {
            AllFoundDropped(v, before, g, p);
          }
        }
        return;
      }
      NoSecretsAdded(before, objects.next);
      NothingMapped(key, webhooks, data.Value());
      if calm {
        StartMapping(v, before, data.Value(), g, p, i);
      }
      var todo := at.Keys;
      while todo != {}
        invariant todo <= at.Keys && at == ClientConfigs(webhooks)
        invariant objects.Valid() && Safe(objects.entries, data.Value())
        invariant p in objects.entries && objects.entries[p] == before[p]
        invariant CarryingBut(Listed(), objects.entries, data.Value(), p) && MappedSoFar(key, webhooks, todo, data.Value())
        invariant old(HostedChain(data.Value())) ==> HostedChain(data.Value())
        invariant AddsSecrets(before, objects.entries) && data.ca.name == old(data.ca.name)
        invariant calm ==> Mapping(v, objects.entries, data.Value(), h, i, todo)
        invariant calm && AllFound(v, before, g) ==> AllFound(v, objects.entries, h)
        decreases todo
      {
        var c := AnyOf(todo);
        ClientConfigsAt(webhooks);
        if calm {
          FoundConfig(v.objects, key, c);
        }
        ghost var earlier := objects.entries;
        WithConfigKeepsCA(data.Value(), webhooks[at[c]].service.value, CABundleName(KeyString(key), webhooks[at[c]].name),
                          webhooks[at[c]].caBundle);
        MappedOneMore(key, webhooks, todo, c, data.Value());
        h := MapClientConfig(p, objects, data, key, webhooks[at[c]], v, calm, h, i, todo);
        todo := todo - {c};
        AddsSecretsTransitive(before, earlier, objects.entries);
      }
      AllMapped(Listed(), objects.entries, data.Value(), p);
      if calm {
        FinishMapping(v, objects.entries, data.Value(), h, i);
      }
    }

    method MapServiceSecretToChain(key: ObjectKey, r: Resource, data: CertificateChainData)
      requires r.content.Secret? && ServiceHostname(Service(key.namespace, key.name)) in data.issued
      modifies data
      ensures data.Value() == WithServiceSecret(old(data.Value()), ServiceHostname(Service(key.namespace, key.name)), r)
    {
      var entries := r.content.data;
      if TLS_PRIVATE_KEY_KEY !in entries || TLS_CERT_KEY !in entries {
        return;
      }
      var n := ServiceHostname(Service(key.namespace, key.name));
      data.issued := data.issued[n := data.issued[n].(keyPEM := entries[TLS_PRIVATE_KEY_KEY], certPEM := entries[TLS_CERT_KEY])];
    }

    method MapCASecretToChain(r: Resource, data: CertificateChainData)
      requires r.content.Secret?
      modifies data
      ensures data.Value() == WithCASecret(old(data.Value()), r)
    {
      var entries := r.content.data;
      if CA_PRIVATE_KEY_KEY !in entries || CA_CERT_KEY !in entries {
        return;
      }
      data.ca := data.ca.(keyPEM := entries[CA_PRIVATE_KEY_KEY], certPEM := entries[CA_CERT_KEY]);
    }

    /** The issue of a service secret is never missing, or the Go code would dereference nil. */
    method MapSecretToChain(key: ObjectKey, r: Resource, data: CertificateChainData)
      requires r.content.Secret? && SecretFits(key, data.Value())
      modifies data
      ensures data.Value() == WithSecret(old(data.Value()), key, r)
    {
      hide ServiceHostname, NamespacedName;
      if NamespacedName(key.namespace, key.name) == data.ca.name {
        MapCASecretToChain(r, data);
      } else {
        MapServiceSecretToChain(key, r, data);
      }
    }

    method Get(key: ObjectKey) returns (got: GetResult)
      requires client.Valid()
      modifies client
      ensures client.Valid()
      ensures old(HostedWorld(client.objects, client.schedule)) ==>
                HostedWorld(client.objects, client.schedule) && (got.Found? ==> HostedResource(got.resource))
      ensures got.Found? ==> WellKinded(key, got.resource) && got.resource.version > 0
      ensures got.Found? ==> key in client.objects && client.objects[key] == got.resource
      ensures got.NotFound? ==> key !in client.objects
      ensures Asked(old(client.log), client.log)
      ensures client.log == if got.Failed? then old(client.log)
                            else old(client.log) + [Read(key, if got.Found? then Some(got.resource) else None)]
      ensures old(Quiet(client.schedule)) ==>
                && Quiet(client.schedule) && client.State() == old(client.State())
                && got == if key in client.objects then Found(client.objects[key]) else NotFound
    {
      hide HostedWorld, HostedResource;
      if Quiet(client.schedule) {
        QuietTurns(client.schedule);
      }
      if HostedWorld(client.objects, client.schedule) {
        HostedTurn(client.State(), client.schedule);
      }
      got := client.Get(key);
      if got.Found? && HostedWorld(client.objects, client.schedule) {
        HostedAt(client.objects, client.schedule, key);
      }
    }

    /**
     * Reads one object and maps it to chain data. An object not found is taken
     * for an empty one, unless the manager is verifying.
     */
    method ReadObjectToChain(p: nat, objects: ObjectMap, data: CertificateChainData, ghost start: nat, ghost hosted: bool,
                             ghost v: View, ghost calm: bool, ghost g: Progress)
      returns (ok: bool, ghost h: Progress)
      requires Apart(objects, data) && Unread(objects.entries, p)
      requires Going(objects, data, start, hosted) && AllCarrying(objects, data)
      requires calm ==> Calm(objects, data, v, g)
      modifies objects, data, client
      ensures Undone(hosted)
      ensures ok ==> Going(objects, data, start, hosted) && AllCarrying(objects, data)
      ensures ok ==> Shrinks(old(objects.entries), objects.entries)
      ensures calm ==> (ok <==> !verifying || old(objects.entries)[p].key in v.objects)
      ensures calm && ok ==> Calm(objects, data, v, h)
      ensures calm && ok && verifying && AllFound(v, old(objects.entries), g) ==> AllFound(v, objects.entries, h)
    {
      hide Safe, HostedChain, HostedResource, HostedWorld, EntriesHosted, EntriesRecorded, Underway, AllFound, Shrinks, Quiet,
        InitObject, WithSecret, SecretFits, Lookup, ValidStore, WellKinded, Carrying, CarryingBut, Asked;
      h := g;
      ghost var before, log, d := objects.entries, client.log, data.Value();
      var key := objects.entries[p].key;
      var r := InitObject(key);
      objects.entries := objects.entries[p := KeyedObject(key, Some(r))];
      InitWellKinded(key);
      var got := Get(key);
      if got.Failed? || (got.NotFound? && verifying) {
        return false, h;
      }
      if got.Found? {
        r := got.resource;
        objects.entries := objects.entries[p := KeyedObject(key, Some(r))];
      }
      assert objects.entries == before[p := KeyedObject(key, Some(r))];
      EntryTracked(before, d, log, client.log, start, p, r);
      CarryingRead(Listed(), before, d, p, r);
      if hosted {
        HostedEntry(before, p, r);
      }
      if calm {
        LookupIs(v.objects, key, r);
        assert objects.entries == ReadEntry(v, before, p);
        if verifying && AllFound(v, before, g) {
          UnderwayFound(v, before, d, g, p);
        }
      }
      ghost var read := objects.entries;
      if key.kind != SecretKind {
        ghost var i := 0;
        if calm {
          i := OpenWebhook(v, before, d, g, p);
        }
        h := MapWebhookToChain(p, objects, data, v, calm, g, i);
        RecordedAfter(read, objects.entries, client.log, start);
        WebhookShrinks(before, read, objects.entries, p);
        if hosted {
          HostedEntries(read, objects.entries);
        }
      } else {
        SafeSecret(objects.entries, d, p);
        MapSecretToChain(key, r, data);
        WithSecretSafe(objects.entries, d, key, r);
        WithSecretKeepsCAName(d, key, r);
        CarryingSecret(Listed(), objects.entries, d, key, r);
        ReadingSecretShrinks(before, p, r);
        if calm {
          MapSecret(v, before, d, g, p);
          h := g.(secrets := g.secrets + {key});
        }
      }
      ok := true;
    }

    /**
     * One range over the object map, in any order. Entries removed meanwhile are
     * not visited, and those added may or may not be.
     */
    method ReadPass(objects: ObjectMap, data: CertificateChainData, ghost start: nat, ghost hosted: bool, ghost v: View,
                    ghost calm: bool, ghost g: Progress)
      returns (ok: bool, objectRead: bool, ghost h: Progress)
      requires Apart(objects, data)
      requires Going(objects, data, start, hosted) && AllCarrying(objects, data)
      requires calm ==> Calm(objects, data, v, g) && (verifying ==> AllFound(v, objects.entries, g))
      modifies objects, data, client
      ensures Undone(hosted)
      ensures ok ==> Going(objects, data, start, hosted) && AllCarrying(objects, data)
      ensures ok && objectRead ==> Shrinks(old(objects.entries), objects.entries)
      ensures ok && !objectRead ==> forall p <- objects.entries :: !Unread(objects.entries, p)
      ensures calm && !verifying ==> ok
      ensures calm && !ok ==> !(AllManaged(v) <= v.objects.Keys)
      ensures calm && ok ==> Calm(objects, data, v, h) && (verifying ==> AllFound(v, objects.entries, h))
    {
      hide HostedWorld, HostedReading, Tracked, Underway, AllFound, Quiet, AllManaged, UnreadWebhooks, AllUnread, ValidStore, Carrying;
      ok, objectRead, h := true, false, g;
      ghost var before := objects.entries;
      if hosted {
        HostedReadingWorld(before, data.Value(), client.objects, client.schedule);
      }
      var pending := objects.entries.Keys;
      while pending != {}
        invariant Undone(hosted) && Going(objects, data, start, hosted) && AllCarrying(objects, data)
        invariant pending <= objects.entries.Keys
        invariant objectRead ==> Shrinks(before, objects.entries)
        invariant !objectRead ==> objects.entries == before && forall p <- before :: p in pending || !Unread(before, p)
        invariant calm ==> Calm(objects, data, v, h) && (verifying ==> AllFound(v, objects.entries, h))
        decreases UnreadWebhooks(objects.entries), AllUnread(objects.entries), pending
      {
        var p := AnyOf(pending);
        pending := pending - {p};
        if objects.entries[p].kobject.None? {
          ghost var earlier := objects.entries;
          var visible := objects.entries.Keys;
          if calm {
            UnderwayIsManaged(v, earlier, data.Value(), h, p);
          }
          ok, h := ReadObjectToChain(p, objects, data, start, hosted, v, calm, h);
          if !ok {
            return;
          }
          if objectRead {
            ShrinksTransitive(before, earlier, objects.entries);
          }
          objectRead := true;
          var added := SomeOrAll(objects.entries.Keys - visible);
          pending := pending * objects.entries.Keys + added;
        }
      }
    }

    /** Ranges over the object map until a range finds nothing left to read. */
    method ReadObjectsToChain(objects: ObjectMap, data: CertificateChainData, ghost start: nat, ghost hosted: bool,
                              ghost v: View, ghost calm: bool, ghost g: Progress)
      returns (ok: bool, ghost h: Progress)
      requires Apart(objects, data)
      requires Going(objects, data, start, hosted) && AllCarrying(objects, data)
      requires calm ==> Calm(objects, data, v, g) && (verifying ==> AllFound(v, objects.entries, g))
      modifies objects, data, client
      ensures Undone(hosted)
      ensures ok ==> Going(objects, data, start, hosted) && AllCarrying(objects, data)
      ensures ok ==> forall p <- objects.entries :: !Unread(objects.entries, p)
      ensures calm ==> (ok <==> !verifying || AllManaged(v) <= v.objects.Keys)
      ensures calm && ok ==> Calm(objects, data, v, h)
    {
      hide HostedWorld, HostedReading, Tracked, Underway, AllFound, Quiet, AllManaged, UnreadWebhooks, AllUnread, ValidStore, Carrying;
      h := g;
      if hosted {
        HostedReadingWorld(objects.entries, data.Value(), client.objects, client.schedule);
      }
      while true
        invariant Undone(hosted) && Going(objects, data, start, hosted) && AllCarrying(objects, data)
        invariant calm ==> Calm(objects, data, v, h) && (verifying ==> AllFound(v, objects.entries, h))
        decreases UnreadWebhooks(objects.entries), AllUnread(objects.entries)
      {
        var objectRead;
        ok, objectRead, h := ReadPass(objects, data, start, hosted, v, calm, h);
        if !ok {
          return;
        }
        if !objectRead {
          if calm && verifying {
            AllFoundDone(v, objects.entries, data.Value(), h);
          }
          return;
        }
      }
    }

    /** Reads everything the webhooks lead to. */
    method ReadCertificateChain(objects: ObjectMap, data: CertificateChainData) returns (ok: bool, ghost g: Progress)
      requires client.Valid() && Apart(objects, data)
      requires objects.entries == map[] && objects.next == 0
      requires data.issued == map[] && data.ca == CA("", [], [], None)
      modifies objects, data, client
      ensures Undone(old(HostedWorld(client.objects, client.schedule)))
      ensures ok ==> Going(objects, data, |old(client.log)|, old(HostedWorld(client.objects, client.schedule)))
      ensures ok ==> AllCarrying(objects, data) && forall p <- objects.entries :: !Unread(objects.entries, p)
      ensures var v := ViewOf(old(client.objects));
              old(Quiet(client.schedule)) && Sound(v.objects, Refs(v), v.ca) ==>
                && (ok <==> !verifying || AllManaged(v) <= v.objects.Keys)
                && (ok ==> Calm(objects, data, v, g))
    {
      hide HostedWorld, Underway, AllFound, Quiet, AllManaged, ValidStore, InitialEntries, Sound, Tracked, EntriesHosted, HostedChain,
        Carrying;
      ghost var v := ViewOf(client.objects);
      ghost var hosted := HostedWorld(client.objects, client.schedule);
      ghost var calm := Quiet(client.schedule) && Sound(v.objects, Refs(v), v.ca);
      g := Progress({}, {}, InitialOrigins(v));
      InitObjects(objects);
      assert objects.entries == InitialEntries(v) by { InitialEntriesAlike(ViewOf(map[]), v); }
      var caKey := CAKey();
      data.ca := data.ca.(name := NamespacedName(caKey.namespace, caKey.name));
      ViewIsSound(v);
      if calm {
        UnderwayStarts(v);
        AllFoundStarts(v);
      }
      NothingTracked(v, client.log);
      NothingCarried(v);
      ok, g := ReadObjectsToChain(objects, data, |client.log|, hosted, v, calm, g);
    }

    lemma ViewIsSound(v: View)
      requires ValidStore(Store(v.objects, client.lastVersion)) && v == ViewOf(v.objects)
      ensures AllWellKinded(v.objects) && Webhooks(v.listed, v.ca)
    {
    }

    // ---- Writing ----

    method MapWebhookFromChain(key: ObjectKey, webhooks: seq<Webhook>, data: CertificateChainData) returns (mapped: seq<Webhook>)
      ensures mapped == MappedWebhooks(key, webhooks, data.Value())
    {
      hide ClientConfigs, ServiceHostname, KeyString, CABundleName;
      var at := ClientConfigMap(webhooks);
      ClientConfigsAt(webhooks);
      mapped := webhooks;
      var todo := at.Keys;
      while todo != {}
        invariant todo <= at.Keys && |mapped| == |webhooks|
        invariant forall j :: 0 <= j < |webhooks| ==>
                    mapped[j] == if webhooks[j].name in todo then webhooks[j] else MappedWebhook(key, webhooks, j, data.Value())
        decreases todo
      {
        var c := AnyOf(todo);
        todo := todo - {c};
        var w := webhooks[at[c]];
        var n := ServiceHostname(w.service.value);
        if n !in data.issued {
          continue;
        }
        var issue := data.issued[n];
        var bundle := CABundleName(KeyString(key), c);
        if bundle !in issue.caCertPEM || issue.caCertPEM[bundle] == [] {
          continue;
        }
        mapped := mapped[at[c] := w.(caBundle := issue.caCertPEM[bundle])];
      }
    }

    method MapServiceSecretFromChain(key: ObjectKey, r: Resource, data: CertificateChainData) returns (mapped: Resource)
      requires r.content.Secret? && NamespacedName(key.namespace, key.name) != data.ca.name
      ensures mapped == FromChain(key, r, data.Value())
    {
      var n := ServiceHostname(Service(key.namespace, key.name));
      if n !in data.issued {
        return r;
      }
      var issue, entries := data.issued[n], r.content.data;
      entries := entries[TLS_PRIVATE_KEY_KEY := issue.keyPEM];
      entries := entries[TLS_CERT_KEY := issue.certPEM];
      mapped := r.(content := Secret(TLS, entries));
    }

    method MapCASecretFromChain(key: ObjectKey, r: Resource, data: CertificateChainData) returns (mapped: Resource)
      requires r.content.Secret? && NamespacedName(key.namespace, key.name) == data.ca.name
      ensures mapped == FromChain(key, r, data.Value())
    {
      var entries := r.content.data;
      entries := entries[CA_PRIVATE_KEY_KEY := data.ca.keyPEM];
      entries := entries[CA_CERT_KEY := data.ca.certPEM];
      mapped := r.(content := Secret(Opaque, entries));
    }

    method MapFromChain(key: ObjectKey, r: Resource, data: CertificateChainData) returns (mapped: Resource)
      ensures mapped == FromChain(key, r, data.Value())
      ensures DiffersOnly(key, data.ca.name, r, mapped) && mapped.version == r.version
    {
      FromChainDiffersOnly(key, r, data.Value());
      match r.content
      case WebhookConfiguration(webhooks) =>
        var changed := MapWebhookFromChain(key, webhooks, data);
        mapped := r.(content := WebhookConfiguration(changed));
      case Secret(_, _) =>
        if NamespacedName(key.namespace, key.name) == data.ca.name {
          mapped := MapCASecretFromChain(key, r, data);
        } else {
          mapped := MapServiceSecretFromChain(key, r, data);
        }
    }

    /**
     * Gets an object again, maps the chain data into it and pushes it, unless
     * that changes nothing; refuses if the object changed since it was read.
     */
    method WriteObjectFromChain(p: nat, objects: ObjectMap, data: CertificateChainData, ghost hosted: bool) returns (ok: bool)
      requires client.Valid() && Apart(objects, data)
      requires p in objects.entries && objects.entries[p].kobject.Some?
      requires WellKinded(objects.entries[p].key, objects.entries[p].kobject.value)
      requires hosted ==> HostedReading(objects.entries, data.Value(), client.objects, client.schedule)
      modifies objects, client
      ensures client.Valid() && objects.entries.Keys == old(objects.entries.Keys)
      ensures hosted ==> HostedReading(objects.entries, data.Value(), client.objects, client.schedule)
      ensures forall q <- objects.entries :: q != p ==> objects.entries[q] == old(objects.entries)[q]
      ensures var key, asRead := old(objects.entries)[p].key, old(objects.entries)[p].kobject.value;
              Rewrote(old(client.log), client.log, key, asRead, FromChain(key, asRead, data.Value()))
      ensures |client.log| == |old(client.log)| + 2 ==>
                var key := old(objects.entries)[p].key;
                key in client.objects && Last(client.log) == Wrote(key, Last(client.log).replaced, client.objects[key])
      ensures old(Quiet(client.schedule)) ==>
                var key, asRead := old(objects.entries)[p].key, old(objects.entries)[p].kobject.value;
                && Quiet(client.schedule)
                && (ok, client.State()) == WriteOne(old(client.State()), key, asRead, data.Value())
                && (client.State() == old(client.State()) ==> Asked(old(client.log), client.log))
    {
      hide FromChain, WellKinded, ValidStore, HostedWorld, HostedResource, HostedChain, EntriesHosted, Quiet, ApplyAll, DiffersOnly;
      ghost var log, s := client.log, client.State();
      var key, asRead := objects.entries[p].key, objects.entries[p].kobject.value;
      var got := Get(key);
      if got.Failed? {
        return false;
      }
      var current := if got.Found? then got.resource else asRead;
      var mapped := MapFromChain(key, current, data);
      FromChainKeepsVersion(key, current, data.Value());
      if hosted {
        CurrentHosted(objects.entries, p, data.Value(), current);
      }
      objects.entries := objects.entries[p := KeyedObject(key, Some(mapped))];
      assert client.log == log + [Read(key, if got.Found? then Some(got.resource) else None)];
      if asRead == mapped {
        return true;
      }
      if asRead != current {
        return false;
      }
      if Quiet(client.schedule) {
        QuietTurns(client.schedule);
        NothingApplied(client.State());
      }
      if hosted {
        HostedTurn(client.State(), client.schedule);
        HostedPut(client.Before(), LaterTurns(client.schedule), key, mapped);
      }
      FoundUnchanged(client.State(), NextTurn(client.schedule).ops, key, asRead);
      if got.NotFound? {
        ok := client.Create(key, mapped);
      } else {
        ok := client.Update(key, mapped);
      }
      assert ok ==> client.log == log + [Read(key, AsFound(asRead)), Wrote(key, AsFound(asRead), mapped.(version := client.lastVersion))];
    }

    /** Writes all objects, in any order, until one write fails. */
    method WriteObjectsFromChain(objects: ObjectMap, data: CertificateChainData, ghost start: nat, ghost hosted: bool,
                                 ghost v: View, ghost calm: bool, ghost d: ChainData, now: Time)
      returns (ok: bool)
      requires client.Valid() && Apart(objects, data)
      requires forall p <- objects.entries :: !Unread(objects.entries, p)
      requires KindsFit(objects.entries) && EntriesRecorded(objects.entries, client.log, start)
      requires hosted ==> HostedReading(objects.entries, data.Value(), client.objects, client.schedule)
      requires Carrying(Listed(), objects.entries, d) && TrustKept(d, data.Value(), now)
      requires calm ==> Quiet(client.schedule) && client.objects == v.objects && ReadFrom(v.objects, objects.entries)
      modifies objects, client
      ensures client.Valid() && old(client.log) <= client.log
      ensures hosted ==> HostedWorld(client.objects, client.schedule)
      ensures NoLostUpdates(client.log, start, |old(client.log)|)
      ensures Unmistakable(Listed()) ==> NoLostTrust(client.log, |old(client.log)|, now)
      ensures NothingElseWritten(client.log, |old(client.log)|, data.ca.name)
      ensures old(Quiet(client.schedule)) ==> Quiet(client.schedule)
      ensures calm ==> (ok <==> !Doubled(v.objects, old(objects.entries), data.Value()))
      ensures calm && ok ==> Written(v.objects, client.objects, old(client.lastVersion),
                                     EntryKeys(old(objects.entries), old(objects.entries.Keys)), data.Value())
      ensures calm && AllUpToDate(v.objects, old(objects.entries), data.Value()) ==>
                client.State() == old(client.State()) && Asked(old(client.log), client.log)
    {
      hide HostedReading, Written, UpToDate, WriteOne, Lookup, Quiet, Rewrote, Recorded, NoneDoubled, Doubled, WellKinded,
        EntryKeys, AsFound, KeepsTrust, FromChain, TrustKept, NoLostTrust, Carrying, Unmistakable, NoLostUpdates, Asked,
        NothingElseWritten, EmptyUnlessFound, DiffersOnly;
      ghost var was, e, log, s := objects.entries, data.Value(), client.log, client.State();
      if calm {
        NothingWritten(v.objects, s.lastVersion, was, e);
      }
      NothingDistrusted(log, now);
      NothingLost(log, start);
      NothingElseYet(log, e.ca.name);
      AskedNothing(log);
      var todo := objects.entries.Keys;
      ghost var done: set<nat> := {};
      while todo != {}
        invariant was.Keys == objects.entries.Keys && done <= was.Keys && todo == was.Keys - done
        invariant forall q <- todo :: objects.entries[q] == was[q]
        invariant client.Valid() && (hosted ==> HostedReading(objects.entries, e, client.objects, client.schedule))
        invariant log <= client.log && NoLostUpdates(client.log, start, |log|) && client.log[..|log|] == log
        invariant Unmistakable(Listed()) ==> NoLostTrust(client.log, |log|, now)
        invariant NothingElseWritten(client.log, |log|, e.ca.name)
        invariant old(Quiet(client.schedule)) ==> Quiet(client.schedule)
        invariant calm ==>
                    && s.lastVersion <= client.lastVersion
                    && Written(v.objects, client.objects, s.lastVersion, EntryKeys(was, done), e)
                    && NoneDoubled(v.objects, was, done, e)
        invariant calm && AllUpToDate(v.objects, was, e) ==> client.State() == s && Asked(log, client.log)
        decreases todo
      {
        var p := AnyOf(todo);
        ghost var key, r, earlier := was[p].key, was[p].kobject.value, client.log;
        assert Recorded(log, start, Read(key, AsFound(r)));
        if calm {
          WriteEntry(v.objects, was, client.State(), s.lastVersion, done, p, e);
        }
        todo, done := todo - {p}, done + {p};
        ok := WriteObjectFromChain(p, objects, data, hosted);
        RewroteSafely(earlier, client.log, start, |log|, Listed(), was, p, d, e, now);
        if Asked(log, earlier) && Asked(earlier, client.log) {
          AskedTwice(log, earlier, client.log);
        }
        if !ok {
          if hosted {
            HostedReadingWorld(objects.entries, e, client.objects, client.schedule);
          }
          return;
        }
      }
      ok := true;
      if hosted {
        HostedReadingWorld(objects.entries, e, client.objects, client.schedule);
      }
      if calm {
        assert done == was.Keys;
        DoneWriting(v.objects, was, e);
      }
    }

    // ---- Entry points ----

    /** Options that NewManager accepted. */
    ghost predicate Configured() {
      Accepted(options) && WithDefaults(options) == options
    }

    /**
     * Reads the chain data, updates them, writes them back, and says after what
     * time to reconcile again.
     */
    method Reconcile(now: Time) returns (r: Outcome<Time>, ghost d: ChainData, ghost draw: Draw, ghost mark: nat)
      requires client.Valid() && client as object != keys
      requires Configured() && !verifying && 0 <= now
      modifies client, keys
      // whatever others do
      ensures client.Valid() && |old(client.log)| <= mark <= |client.log|
      ensures Asked(old(client.log), client.log[..mark]) && NoLostUpdates(client.log, |old(client.log)|, mark)
      ensures Unmistakable(Listed()) ==> NoLostTrust(client.log, mark, now)
      ensures NothingElseWritten(client.log, mark, CAName())
      ensures r.Panicked? ==> MayPanic(options, Decoded(d), now) && mark == |client.log|
      ensures old(HostedWorld(client.objects, client.schedule)) ==> HostedWorld(client.objects, client.schedule) && !r.Panicked?
      ensures old(Quiet(client.schedule)) ==> Quiet(client.schedule)
      ensures old(keys.next) <= keys.next
      // while nobody else writes
      ensures var v := ViewOf(old(client.objects));
              var e := Step(options, d, draw, now);
              old(Quiet(client.schedule)) && Sound(v.objects, Refs(v), v.ca) ==>
                && Describes(v.objects, Refs(v), v.ca, d)
                && (r.Panicked? ==> client.State() == old(client.State()))
                && (MustPanic(options, Decoded(d), now) ==> r.Panicked?)
                && (!r.Panicked? ==>
                      && Drawn(draw, ActionAt(options, Decoded(d), now), d.issued.Keys, old(keys.next), keys.next)
                      && WrittenUndisturbed(v, old(client.lastVersion), client.objects, e, r.Done?))
                && (r.Done? ==> r.value == StepAt(options, d, draw, now) - now)
                && (!r.Panicked? && StoredKeysBelow(d, old(keys.next)) ==> SucceedsUnshared(v, options, d, now, r.Done?))
                && (!r.Panicked? && NothingToWrite(v, e) ==>
                      client.State() == old(client.State()) && Asked(old(client.log), client.log))
      ensures var v := ViewOf(old(client.objects));
              old(Quiet(client.schedule)) && Sound(v.objects, Refs(v), v.ca) && r.Done? ==> Repairs(v, client.objects, options, now)
      ensures var v := ViewOf(old(client.objects));
              forall e :: old(Quiet(client.schedule)) && AtRest(v, options, e, now) ==>
                && r == Done(NextDeadline(options, e) - now)
                && client.State() == old(client.State()) && Asked(old(client.log), client.log)
    {
      hide HostedWorld, Underway, Quiet, AllManaged, ValidStore, Sound, Safe, HostedChain, EntriesRecorded, Describes, Written,
        UpToDate, Clash, Doubled, Step, StepAt, Succeeds, ActionAt, Decoded, NoLostUpdates, Accepted, WithDefaults, Updated,
        WrittenUndisturbed, NothingToWrite, AllUpToDate, Drawn, KindsFit, EntriesHosted, FindRotationDeadlineForCA,
        ReadFrom, AllWellKinded, Webhooks, AtRest, Repairs, NextDeadline, Carrying, TrustKept, NoLostTrust, Unmistakable, VisitsAll,
        VerdictInOrder, HasNameless, StoredKeysBelow, SucceedsUnshared, Refs, HasBundle, EntryKeys, InitialEntries,
        MayPanic, MustPanic, UpdateInOrder, Asked, NothingElseWritten;
      ghost var v, log := ViewOf(client.objects), client.log;
      ghost var calm := Quiet(client.schedule) && Sound(v.objects, Refs(v), v.ca);
      ghost var hosted := HostedWorld(client.objects, client.schedule);
      AtRestIsSound(v);
      ViewIsSound(v);
      var objects := new ObjectMap();
      var data := new CertificateChainData(map[], CA("", [], [], None));
      var ok;
      ghost var g;
      ok, g := ReadCertificateChain(objects, data);
      d, draw, mark := data.Value(), Draw(0, map[]), |client.log|;
      ghost var read := client.log;
      AskedIsLonger(log, read);
      NothingLost(read, |log|);
      NothingDistrusted(read, now);
      NothingElseYet(read, CAName());
      assert read[..mark] == read;
      if !ok {
        return Error("Failed reading certificate data"), d, draw, mark;
      }
      if calm {
        ReadCanBeUpdated(v, objects.entries, d, g, options, now);
      }
      SafeKindsFit(objects.entries, d);
      var at;
      ghost var order;
      at, draw, order := Chain.Update(options, data, keys, now);
      PanicsAreNameless(options, d, order, draw, now);
      if hosted {
        HostedNeverPanics(d);
      }
      if at.Panicked? {
        if calm {
          RestNeverPanics(v, options, d, now);
        }
        return Panicked, d, draw, mark;
      }
      if at.Error? {
        return Error("Failed updating certificate data"), d, draw, mark;
      }
      if hosted {
        UpdateKeepsHosted(options, d, draw, now);
      }
      StepKeepsTrust(options, d, draw, now);
      StepKeepsCAName(options, d, draw, now);
      ghost var entries, s := objects.entries, client.State();
      ok := WriteObjectsFromChain(objects, data, |log|, hosted, v, calm, d, now);
      assert client.log[..mark] == read;
      if calm {
        ReconciledUndisturbed(v, entries, options, d, g, draw, now, s.lastVersion, client.objects, ok, old(keys.next), keys.next);
        if Asked(read, client.log) {
          AskedTwice(log, read, client.log);
        }
      }
      if !ok {
        return Error("Failed writing certificate data"), d, draw, mark;
      }
      r := Done(at.value - now);
    }

    /** Strict verification of what is stored: everything must be there. */
    method VerifyTLS(now: Time) returns (verdict: Verdict)
      requires client.Valid()
      requires client as object != keys && this as object != client && Configured()
      modifies client, this`verifying
      ensures Undone(old(HostedWorld(client.objects, client.schedule))) && !verifying
      ensures old(HostedWorld(client.objects, client.schedule)) ==> verdict != Panics
      ensures var v := ViewOf(old(client.objects));
              old(Quiet(client.schedule)) && Sound(v.objects, Refs(v), v.ca) ==>
                && (verdict == Trusted <==> Verified(v, now))
                && (verdict == Trusted <==> AllTrust(v.objects, Refs(v), v.ca, now))
                && (verdict == Panics ==> exists d :: Describes(v.objects, Refs(v), v.ca, d) && HasNameless(Decoded(d)))
    {
      hide HostedWorld, Underway, Quiet, ValidStore, Sound, Safe, HostedChain, EntriesRecorded, EntriesHosted, Describes,
        Decoded, Accepted, WithDefaults, Verifies, Verified, Managed, VisitsAll, VerdictInOrder, HasNameless, Carrying,
        AllTrust;
      ghost var v := ViewOf(client.objects);
      ghost var calm := Quiet(client.schedule) && Sound(v.objects, Refs(v), v.ca);
      ghost var hosted := HostedWorld(client.objects, client.schedule);
      verifying := true;
      var objects := new ObjectMap();
      var data := new CertificateChainData(map[], CA("", [], [], None));
      var ok;
      ghost var g;
      ok, g := ReadCertificateChain(objects, data);
      if !ok {
        if calm {
          MissingFails(v, now);
        }
        verifying := false;
        return Rejected;
      }
      ghost var d := data.Value();
      if calm {
        ReadCanBeUpdated(v, objects.entries, d, g, options, now);
        VerifiedBy(v, d, now);
      }
      ghost var order;
      verdict, order := Chain.Verify(options, data, keys, now);
      TrustedInAnyOrder(Decoded(d), order, now);
      if hosted {
        HostedNeverPanics(d);
      }
      verifying := false;
    }
  }

  /** Sets the defaults of the options, which must then be valid. */
  method NewManager(name: string, namespace: string, client: Server, options: Options, webhooks: seq<WebhookReference>,
                    keys: KeySource)
    returns (r: Result<Manager>)
    ensures r.Ok? <==> Accepted(options)
    ensures r.Ok? ==> fresh(r.value) && r.value.Configured() && r.value.options == WithDefaults(options) && !r.value.verifying
    ensures r.Ok? ==> r.value.client == client && r.value.keys == keys && r.value.webhooks == webhooks
    ensures r.Ok? ==> r.value.name == name && r.value.namespace == namespace
  {
    var o := new OptionsVar(options);
    var valid := o.SetDefaultsAndValidate();
    if !valid {
      return Err("invalid options");
    }
    DefaultsAreIdempotent(options);
    var m := new Manager(name, namespace, client, o.value, webhooks, keys);
    r := Ok(m);
  }
}
