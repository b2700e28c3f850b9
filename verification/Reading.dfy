/**
 * The worklist that reading works off: references to objects, some read and
 * some not, which grows while it is worked off, in any order.
 */
module Reading {
  import opened Common
  import opened Triple
  import opened ChainModel
  import opened ApiServer
  import opened Configuration

  /** A reference to an object, and the object once it was read. */
  datatype KeyedObject = KeyedObject(key: ObjectKey, kobject: Option<Resource>)

  /** The object map of the Go code is keyed by pointers, so one object may have several entries. */
  type Entries = map<nat, KeyedObject>

  predicate Unread(entries: Entries, p: nat) {
    p in entries && entries[p].kobject.None?
  }

  predicate Present(entries: Entries, key: ObjectKey) {
    exists p <- entries :: entries[p].key == key
  }

  predicate Pending(entries: Entries, key: ObjectKey) {
    exists p <- entries :: Unread(entries, p) && entries[p].key == key
  }

  function UnreadWebhooks(entries: Entries): set<nat> {
    set p | p in entries && Unread(entries, p) && entries[p].key.kind != SecretKind
  }

  function AllUnread(entries: Entries): set<nat> {
    set p | p in entries && Unread(entries, p)
  }

  // ---- Whatever the environment does ----

  /** Every service secret on the list has an issue to be read into. */
  predicate Safe(entries: Entries, d: ChainData) {
    forall p <- entries ::
      && (entries[p].kobject.Some? ==> WellKinded(entries[p].key, entries[p].kobject.value))
      && (entries[p].key.kind == SecretKind ==>
            || NamespacedName(entries[p].key.namespace, entries[p].key.name) == d.ca.name
            || ServiceHostname(Service(entries[p].key.namespace, entries[p].key.name)) in d.issued)
  }

  // ---- While the store stays as it is ----

  /** An entry for a webhook to manage, the CA secret or the secret of a service already found. */
  ghost predicate Known(objects: Objects, refs: set<ObjectKey>, ca: ObjectKey, configs: set<Config>, key: ObjectKey) {
    key in refs || key == ca || exists c <- configs :: SecretKey(ServiceAt(objects, c)) == key
  }

  /**
   * How far reading has come: some configurations and some secrets are in the
   * chain data, and what is missing is still on the list, except for the
   * webhook that is being read.
   */
  ghost predicate ReadingInv(objects: Objects, refs: set<ObjectKey>, ca: ObjectKey, entries: Entries, d: ChainData,
                             configs: set<Config>, secrets: set<ObjectKey>, busy: set<ObjectKey>) {
    && ReadAs(d, objects, configs, secrets, ca)
    && SecretsKnown(objects, configs, secrets, ca)
    && configs <= Configs(objects, refs)
    && (forall p <- entries :: entries[p].kobject.Some? ==> entries[p].kobject.value == Lookup(objects, entries[p].key))
    && (forall p <- entries :: Known(objects, refs, ca, configs, entries[p].key))
    && (forall k <- refs - busy :: Pending(entries, k) || ConfigsIn(objects, k) <= configs)
    && (forall c <- configs :: Present(entries, SecretKey(ServiceAt(objects, c))) && Present(entries, c.key))
    && Present(entries, ca)
    && (forall p <- entries :: entries[p].kobject.Some? && entries[p].key.kind == SecretKind ==> entries[p].key in secrets)
  }

  /** References are to webhooks, the CA key to a secret, and names are unambiguous. */
  ghost predicate Sound(objects: Objects, refs: set<ObjectKey>, ca: ObjectKey) {
    && (forall k <- refs :: k.kind != SecretKind)
    && ca.kind == SecretKind
    && Unambiguous(objects, Configs(objects, refs), ca)
  }

  /** The names that Kubernetes allows for services and namespaces contain neither dots nor slashes. */
  predicate Label(name: string) {
    '.' !in name && '/' !in name
  }

  /**
   * Names are unambiguous when they are labels, bundle names differ and no
   * service is named like the CA secret.
   */
  lemma LabelsAreSound(objects: Objects, refs: set<ObjectKey>, ca: ObjectKey)
    requires (forall k <- refs :: k.kind != SecretKind) && ca.kind == SecretKind && Label(ca.namespace)
    requires forall c <- Configs(objects, refs) ::
               && Label(ServiceAt(objects, c).name) && Label(ServiceAt(objects, c).namespace)
               && SecretKey(ServiceAt(objects, c)) != ca
    requires forall c <- Configs(objects, refs), e <- Configs(objects, refs) :: BundleAt(c) == BundleAt(e) ==> c == e
    ensures Sound(objects, refs, ca)
  {
    hide ServiceAt, Configs, BundleAt, WebhookAt, ServiceHostname;
    forall c <- Configs(objects, refs), e <- Configs(objects, refs) ensures Agree(objects, c, e) {
      if HostAt(objects, c) == HostAt(objects, e) {
        HostnameInjective(ServiceAt(objects, c), ServiceAt(objects, e));
      }
    }
    forall c <- Configs(objects, refs) ensures !NamedAs(SecretKey(ServiceAt(objects, c)), ca) {
      var key := SecretKey(ServiceAt(objects, c));
      if NamedAs(key, ca) {
        JoinInjective(key.namespace, key.name, '/', ca.namespace, ca.name);
      }
    }
  }

  ghost function AllSecrets(objects: Objects, refs: set<ObjectKey>, ca: ObjectKey): set<ObjectKey> {
    {ca} + set c | c in Configs(objects, refs) :: SecretKey(ServiceAt(objects, c))
  }

  /** The chain that the objects in the store describe. */
  ghost predicate Describes(objects: Objects, refs: set<ObjectKey>, ca: ObjectKey, d: ChainData) {
    ReadAs(d, objects, Configs(objects, refs), AllSecrets(objects, refs, ca), ca)
  }

  lemma DescribesOne(objects: Objects, refs: set<ObjectKey>, ca: ObjectKey, d: ChainData, e: ChainData)
    requires Describes(objects, refs, ca, d) && Describes(objects, refs, ca, e)
    ensures d == e
  {
    hide ReadAs;
    ReadIsUnique(d, e, objects, Configs(objects, refs), AllSecrets(objects, refs, ca), ca);
  }

  lemma ConfigKey(objects: Objects, refs: set<ObjectKey>, c: Config)
    requires c in Configs(objects, refs)
    ensures c.key in refs && c in ConfigsIn(objects, c.key)
  {
  }

  lemma UnambiguousSubset(objects: Objects, configs: set<Config>, more: set<Config>, ca: ObjectKey)
    requires configs <= more && Unambiguous(objects, more, ca)
    ensures Unambiguous(objects, configs, ca)
  {
    hide Agree;
  }

  // ---- Steps ----

  lemma StartWebhook(objects: Objects, refs: set<ObjectKey>, ca: ObjectKey, entries: Entries, d: ChainData,
                     configs: set<Config>, secrets: set<ObjectKey>, p: nat)
    requires Sound(objects, refs, ca) && ReadingInv(objects, refs, ca, entries, d, configs, secrets, {})
    requires p in entries && entries[p].key.kind != SecretKind
    ensures entries[p].key in refs
    ensures ReadingInv(objects, refs, ca,
                       entries[p := entries[p].(kobject := Some(Lookup(objects, entries[p].key)))], d,
                       configs, secrets, {entries[p].key})
  {
    hide ReadAs, SecretsKnown, Unambiguous, Lookup, ConfigsIn, ServiceAt, Configs;
    var k := entries[p].key;
    var next := entries[p := KeyedObject(k, Some(Lookup(objects, k)))];
    assert Known(objects, refs, ca, configs, k);
    forall l <- refs - {k} ensures Pending(next, l) || ConfigsIn(objects, l) <= configs {
      if Pending(entries, l) {
        var q :| q in entries && Unread(entries, q) && entries[q].key == l;
        assert q in next && Unread(next, q) && next[q].key == l;
      }
    }
    forall l | Present(entries, l) ensures Present(next, l) {
      PresentStays(entries, next, l);
    }
  }

  lemma PresentStays(entries: Entries, next: Entries, key: ObjectKey)
    requires Present(entries, key) && forall p <- entries :: p in next && next[p].key == entries[p].key
    ensures Present(next, key)
  {
    var p :| p in entries && entries[p].key == key;
    assert p in next && next[p].key == key;
  }

  lemma FinishWebhook(objects: Objects, refs: set<ObjectKey>, ca: ObjectKey, entries: Entries, d: ChainData,
                      configs: set<Config>, secrets: set<ObjectKey>, k: ObjectKey)
    requires ReadingInv(objects, refs, ca, entries, d, configs, secrets, {k})
    requires ConfigsIn(objects, k) <= configs
    ensures ReadingInv(objects, refs, ca, entries, d, configs, secrets, {})
  {
    hide ReadAs, SecretsKnown, Lookup, ConfigsIn, ServiceAt, Configs, Known, Present, Pending;
    forall l <- refs - {} ensures Pending(entries, l) || ConfigsIn(objects, l) <= configs {
      assert l == k || l in refs - {k};
    }
  }

  /** A webhook without client configurations is taken off the list. */
  lemma DropWebhook(objects: Objects, refs: set<ObjectKey>, ca: ObjectKey, entries: Entries, d: ChainData,
                    configs: set<Config>, secrets: set<ObjectKey>, p: nat)
    requires Sound(objects, refs, ca)
    requires p in entries && entries[p].key in refs
    requires ReadingInv(objects, refs, ca, entries, d, configs, secrets, {entries[p].key})
    requires ConfigsIn(objects, entries[p].key) == {}
    ensures ReadingInv(objects, refs, ca, entries - {p}, d, configs, secrets, {})
  {
    hide ReadAs, SecretsKnown, Unambiguous, Lookup, ConfigsIn, ServiceAt, Configs, Known;
    var k := entries[p].key;
    var next := entries - {p};
    forall l <- refs - {} ensures Pending(next, l) || ConfigsIn(objects, l) <= configs {
      if l != k {
        assert l in refs - {k};
        if Pending(entries, l) {
          var q :| q in entries && Unread(entries, q) && entries[q].key == l;
          assert q in next && Unread(next, q) && next[q].key == l;
        }
      }
    }
    forall l | Present(entries, l) && l != k ensures Present(next, l) {
      var q :| q in entries && entries[q].key == l;
      assert q in next && next[q].key == l;
    }
    forall c <- configs ensures c.key != k {
      ConfigKey(objects, refs, c);
    }
  }

  /** Each client configuration joins its issue and puts the secret of its service on the list. */
  lemma ReadConfig(objects: Objects, refs: set<ObjectKey>, ca: ObjectKey, entries: Entries, d: ChainData,
                   configs: set<Config>, secrets: set<ObjectKey>, k: ObjectKey, c: Config, q: nat)
    requires Sound(objects, refs, ca) && ReadingInv(objects, refs, ca, entries, d, configs, secrets, {k})
    requires k in refs && c in ConfigsIn(objects, k) && Present(entries, k) && q !in entries
    ensures ReadingInv(objects, refs, ca,
                       entries[q := KeyedObject(SecretKey(ServiceAt(objects, c)), None)], ChainWithConfig(d, objects, c),
                       configs + {c}, secrets, {k})
    ensures Present(entries[q := KeyedObject(SecretKey(ServiceAt(objects, c)), None)], k)
  {
    hide ReadAs, Unambiguous, Lookup, ServiceAt;
    assert c in Configs(objects, refs) && c.key == k;
    UnambiguousSubset(objects, configs + {c}, Configs(objects, refs), ca);
    AddConfig(d, objects, configs, secrets, ca, c);
    ReadConfigEntries(objects, refs, ca, entries, configs, secrets, k, c, q);
    SecretsKnownMore(objects, configs, secrets, ca, c);
  }

  lemma SecretsKnownMore(objects: Objects, configs: set<Config>, secrets: set<ObjectKey>, ca: ObjectKey, c: Config)
    requires SecretsKnown(objects, configs, secrets, ca)
    ensures SecretsKnown(objects, configs + {c}, secrets, ca)
  {
    hide ServiceAt;
    forall k <- secrets ensures k == ca || exists e <- configs + {c} :: SecretKey(ServiceAt(objects, e)) == k {
      if k != ca {
        var e :| e in configs && SecretKey(ServiceAt(objects, e)) == k;
        assert e in configs + {c};
      }
    }
  }

  lemma ReadConfigEntries(objects: Objects, refs: set<ObjectKey>, ca: ObjectKey, entries: Entries,
                          configs: set<Config>, secrets: set<ObjectKey>, k: ObjectKey, c: Config, q: nat)
    requires c.key == k && Present(entries, k) && q !in entries
    requires forall p <- entries :: Known(objects, refs, ca, configs, entries[p].key)
    requires forall l <- refs - {k} :: Pending(entries, l) || ConfigsIn(objects, l) <= configs
    requires forall e <- configs :: Present(entries, SecretKey(ServiceAt(objects, e))) && Present(entries, e.key)
    requires Present(entries, ca)
    ensures var next := entries[q := KeyedObject(SecretKey(ServiceAt(objects, c)), None)];
            && Present(next, k) && Present(next, ca)
            && (forall p <- next :: Known(objects, refs, ca, configs + {c}, next[p].key))
            && (forall l <- refs - {k} :: Pending(next, l) || ConfigsIn(objects, l) <= configs + {c})
            && forall e <- configs + {c} :: Present(next, SecretKey(ServiceAt(objects, e))) && Present(next, e.key)
  {
    hide ServiceAt, ConfigsIn;
    var next := entries[q := KeyedObject(SecretKey(ServiceAt(objects, c)), None)];
    assert c in configs + {c};
    assert q in next && next[q].key == SecretKey(ServiceAt(objects, c));
    forall l | Present(entries, l) ensures Present(next, l) {
      PresentStays(entries, next, l);
    }
    forall l <- refs - {k} ensures Pending(next, l) || ConfigsIn(objects, l) <= configs + {c} {
      if Pending(entries, l) {
        var p :| p in entries && Unread(entries, p) && entries[p].key == l;
        assert p in next && Unread(next, p) && next[p].key == l;
      }
    }
    forall p <- next ensures Known(objects, refs, ca, configs + {c}, next[p].key) {
      if p != q {
        KnownMore(objects, refs, ca, configs, c, entries[p].key);
      }
    }
  }

  lemma KnownMore(objects: Objects, refs: set<ObjectKey>, ca: ObjectKey, configs: set<Config>, c: Config, key: ObjectKey)
    requires Known(objects, refs, ca, configs, key)
    ensures Known(objects, refs, ca, configs + {c}, key)
  {
    hide ServiceAt;
    if e :| e in configs && SecretKey(ServiceAt(objects, e)) == key {
      assert e in configs + {c};
    }
  }

  lemma EntryRead(entries: Entries, p: nat, r: Resource)
    requires p in entries
    ensures var next := entries[p := entries[p].(kobject := Some(r))];
            && (forall l :: Present(entries, l) <==> Present(next, l))
            && (forall l :: l != entries[p].key ==> (Pending(entries, l) <==> Pending(next, l)))
  {
    var next := entries[p := entries[p].(kobject := Some(r))];
    forall l ensures Present(entries, l) <==> Present(next, l) {
      if q :| q in entries && entries[q].key == l {
        assert q in next && next[q].key == l;
      }
      if q :| q in next && next[q].key == l {
        assert q in entries && entries[q].key == l;
      }
    }
    forall l | l != entries[p].key ensures Pending(entries, l) <==> Pending(next, l) {
      if q :| q in entries && Unread(entries, q) && entries[q].key == l {
        assert q in next && Unread(next, q) && next[q].key == l;
      }
      if q :| q in next && Unread(next, q) && next[q].key == l {
        assert q in entries && Unread(entries, q) && entries[q].key == l;
      }
    }
  }

  /** A secret on the list that is not the CA secret belongs to a service already found, */
  lemma SecretOfService(objects: Objects, refs: set<ObjectKey>, ca: ObjectKey, configs: set<Config>, key: ObjectKey)
    requires Sound(objects, refs, ca) && configs <= Configs(objects, refs) && Known(objects, refs, ca, configs, key)
    requires key.kind == SecretKind
    ensures key == ca <==> NamedAs(key, ca)
    ensures key != ca ==> exists c <- configs :: ServiceAt(objects, c) == Service(key.namespace, key.name)
  {
    hide ServiceAt, Configs, Agree;
    if key != ca {
      var c :| c in configs && SecretKey(ServiceAt(objects, c)) == key;
      assert ServiceAt(objects, c) == Service(key.namespace, key.name);
    }
  }

  /** and is read into the issue of that service. */
  lemma ReadServiceSecret(objects: Objects, refs: set<ObjectKey>, ca: ObjectKey, entries: Entries, d: ChainData,
                          configs: set<Config>, secrets: set<ObjectKey>, p: nat)
    requires Sound(objects, refs, ca) && ReadingInv(objects, refs, ca, entries, d, configs, secrets, {})
    requires p in entries && entries[p].key.kind == SecretKind && !NamedAs(entries[p].key, ca)
    ensures var key := entries[p].key;
            var n := ServiceHostname(Service(key.namespace, key.name));
            && n in d.issued
            && ReadingInv(objects, refs, ca, entries[p := entries[p].(kobject := Some(Lookup(objects, key)))],
                          WithServiceSecret(d, n, Lookup(objects, key)), configs, secrets + {key}, {})
  {
    hide ReadAs, Unambiguous, Lookup, ServiceAt, Configs, ConfigsIn, Present, Pending, Unread, WithServiceSecret, ServiceHostname;
    var key := entries[p].key;
    assert Known(objects, refs, ca, configs, key);
    SecretOfService(objects, refs, ca, configs, key);
    var c :| c in configs && ServiceAt(objects, c) == Service(key.namespace, key.name);
    UnambiguousSubset(objects, configs, Configs(objects, refs), ca);
    AddServiceSecret(d, objects, configs, secrets, ca, c);
    EntryRead(entries, p, Lookup(objects, key));
  }

  lemma ReadCASecret(objects: Objects, refs: set<ObjectKey>, ca: ObjectKey, entries: Entries, d: ChainData,
                     configs: set<Config>, secrets: set<ObjectKey>, p: nat)
    requires Sound(objects, refs, ca) && ReadingInv(objects, refs, ca, entries, d, configs, secrets, {})
    requires p in entries && entries[p].key.kind == SecretKind && NamedAs(entries[p].key, ca)
    ensures entries[p].key == ca
    ensures ReadingInv(objects, refs, ca, entries[p := entries[p].(kobject := Some(Lookup(objects, ca)))],
                       WithCASecret(d, Lookup(objects, ca)), configs, secrets + {ca}, {})
  {
    hide ReadAs, Unambiguous, Lookup, ServiceAt, Configs, ConfigsIn, Present, Pending, Unread, WithCASecret;
    assert Known(objects, refs, ca, configs, entries[p].key);
    SecretOfService(objects, refs, ca, configs, entries[p].key);
    UnambiguousSubset(objects, configs, Configs(objects, refs), ca);
    AddCASecret(d, objects, configs, secrets, ca);
    EntryRead(entries, p, Lookup(objects, ca));
  }

  // ---- The beginning and the end ----

  lemma ReadingStarts(objects: Objects, refs: set<ObjectKey>, ca: ObjectKey, entries: Entries)
    requires forall p <- entries :: entries[p].kobject.None? && (entries[p].key in refs || entries[p].key == ca)
    requires forall k <- refs + {ca} :: Present(entries, k)
    ensures ReadingInv(objects, refs, ca, entries,
                       ChainData(map[], CA(NamespacedName(ca.namespace, ca.name), [], [], None)), {}, {}, {})
  {
    NothingRead(objects, ca, ChainData(map[], CA(NamespacedName(ca.namespace, ca.name), [], [], None)));
    forall k <- refs ensures Pending(entries, k) {
      assert k in refs + {ca} && Present(entries, k);
      var p :| p in entries && entries[p].key == k;
      assert Unread(entries, p);
    }
  }

  /** Once everything is read the chain data is what the objects describe, whatever the order was. */
  lemma ReadingDone(objects: Objects, refs: set<ObjectKey>, ca: ObjectKey, entries: Entries, d: ChainData,
                    configs: set<Config>, secrets: set<ObjectKey>)
    requires Sound(objects, refs, ca) && ReadingInv(objects, refs, ca, entries, d, configs, secrets, {})
    requires forall p <- entries :: !Unread(entries, p)
    ensures Describes(objects, refs, ca, d)
    ensures forall k <- AllSecrets(objects, refs, ca) :: Present(entries, k)
    ensures forall k <- refs :: Present(entries, k) || ConfigsIn(objects, k) == {}
  {
    hide ReadAs, Unambiguous, Lookup, ServiceAt, ConfigsIn;
    forall c <- Configs(objects, refs) ensures c in configs {
      ConfigKey(objects, refs, c);
      assert c.key in refs - {};
      assert !Pending(entries, c.key);
    }
    assert configs == Configs(objects, refs);
    forall k <- AllSecrets(objects, refs, ca) ensures Present(entries, k) && k in secrets {
      SecretPresent(objects, refs, ca, entries, configs, k);
      var p :| p in entries && entries[p].key == k;
      assert !Unread(entries, p);
    }
    assert secrets == AllSecrets(objects, refs, ca);
    forall k <- refs ensures Present(entries, k) || ConfigsIn(objects, k) == {} {
      if ConfigsIn(objects, k) != {} {
        var c := SomeOf(ConfigsIn(objects, k));
        assert c in Configs(objects, refs);
        ConfigInKey(objects, k, c);
      }
    }
  }

  lemma ConfigInKey(objects: Objects, k: ObjectKey, c: Config)
    requires c in ConfigsIn(objects, k)
    ensures c.key == k
  {
  }

  lemma SecretPresent(objects: Objects, refs: set<ObjectKey>, ca: ObjectKey, entries: Entries, configs: set<Config>, k: ObjectKey)
    requires configs == Configs(objects, refs) && k in AllSecrets(objects, refs, ca) && ca.kind == SecretKind
    requires forall c <- configs :: Present(entries, SecretKey(ServiceAt(objects, c)))
    requires Present(entries, ca)
    ensures Present(entries, k) && k.kind == SecretKind
  {
    hide ServiceAt, Configs, Present;
  }
}
