/**
 * Why an object is on the list: the object map is keyed by pointers, so every
 * reason makes an entry of its own, and objects with two reasons have two.
 */
module Sharing {
  import opened Common
  import opened Triple
  import opened ChainModel
  import opened ApiServer
  import opened Configuration
  import opened Reading
  import opened Writing

  /** The i-th webhook reference, the CA, or the service of a configuration in the i-th webhook. */
  datatype Origin = Listed(i: nat) | TheCA | Backing(i: nat, name: string)

  function KeysOf(listed: seq<ObjectKey>): set<ObjectKey> {
    set k | k in listed
  }

  predicate Genuine(objects: Objects, listed: seq<ObjectKey>, o: Origin) {
    match o
    case Listed(i) => i < |listed|
    case TheCA => true
    case Backing(i, c) => i < |listed| && Config(listed[i], c) in ConfigsIn(objects, listed[i])
  }

  function KeyOf(objects: Objects, listed: seq<ObjectKey>, ca: ObjectKey, o: Origin): ObjectKey
    requires Genuine(objects, listed, o)
  {
    match o
    case Listed(i) => listed[i]
    case TheCA => ca
    case Backing(i, c) => SecretKey(ServiceAt(objects, Config(listed[i], c)))
  }

  type Origins = map<nat, Origin>

  predicate Has(origins: Origins, o: Origin) {
    exists p <- origins :: origins[p] == o
  }

  predicate Waiting(entries: Entries, origins: Origins, i: nat) {
    exists p <- origins :: origins[p] == Listed(i) && Unread(entries, p)
  }

  /** Entries have origins of their own, and the configurations of a webhook come on the list when it is read. */
  ghost predicate Sourced(objects: Objects, listed: seq<ObjectKey>, ca: ObjectKey, entries: Entries, origins: Origins) {
    && origins.Keys == entries.Keys
    && (forall p <- origins :: Genuine(objects, listed, origins[p]) && KeyOf(objects, listed, ca, origins[p]) == entries[p].key)
    && (forall p <- origins, q <- origins :: origins[p] == origins[q] ==> p == q)
    && forall p <- origins :: origins[p].Backing? ==> !Waiting(entries, origins, origins[p].i)
  }

  /** A webhook without configurations need not stay on the list. */
  predicate Idle(objects: Objects, listed: seq<ObjectKey>, o: Origin) {
    o.Listed? && o.i < |listed| && ConfigsIn(objects, listed[o.i]) == {}
  }

  /** Nothing is missing but what a webhook yet to be read, or being read, will add. */
  ghost predicate Complete(objects: Objects, listed: seq<ObjectKey>, entries: Entries, origins: Origins, busy: Option<nat>) {
    forall o: Origin | Genuine(objects, listed, o) ::
      || Has(origins, o)
      || Idle(objects, listed, o)
      || (o.Backing? && (busy == Some(o.i) || Waiting(entries, origins, o.i)))
  }

  ghost predicate Traced(objects: Objects, listed: seq<ObjectKey>, ca: ObjectKey, entries: Entries, origins: Origins,
                         busy: Option<nat>) {
    Sourced(objects, listed, ca, entries, origins) && Complete(objects, listed, entries, origins, busy)
  }

  ghost predicate Webhooks(listed: seq<ObjectKey>, ca: ObjectKey) {
    (forall k <- listed :: k.kind != SecretKind) && ca.kind == SecretKind
  }

  lemma WebhookIsListed(objects: Objects, listed: seq<ObjectKey>, ca: ObjectKey, entries: Entries, origins: Origins, p: nat)
    requires Webhooks(listed, ca) && Sourced(objects, listed, ca, entries, origins) && p in entries
    ensures entries[p].key.kind != SecretKind <==> origins[p].Listed?
    ensures origins[p].Listed? ==> origins[p].i < |listed| && listed[origins[p].i] == entries[p].key
  {
    hide ServiceAt, ConfigsIn, Waiting;
    assert Genuine(objects, listed, origins[p]);
  }

  lemma WaitingAfterRead(entries: Entries, origins: Origins, p: nat, r: Resource, i: nat)
    requires origins.Keys == entries.Keys && p in entries
    requires forall p <- origins, q <- origins :: origins[p] == origins[q] ==> p == q
    ensures var next := entries[p := entries[p].(kobject := Some(r))];
            && (Waiting(next, origins, i) ==> Waiting(entries, origins, i))
            && (Waiting(entries, origins, i) && origins[p] != Listed(i) ==> Waiting(next, origins, i))
            && (origins[p] == Listed(i) ==> !Waiting(next, origins, i))
  {
    var next := entries[p := entries[p].(kobject := Some(r))];
    if q :| q in origins && origins[q] == Listed(i) && Unread(next, q) {
      assert Unread(entries, q);
    }
    if q :| q in origins && origins[q] == Listed(i) && Unread(entries, q) && q != p {
      assert Unread(next, q);
    }
  }

  /** Reading an object: what a webhook adds is then being worked on. */
  lemma TraceRead(objects: Objects, listed: seq<ObjectKey>, ca: ObjectKey, entries: Entries, origins: Origins,
                  p: nat, r: Resource)
    requires Webhooks(listed, ca) && Traced(objects, listed, ca, entries, origins, None) && p in entries
    ensures var busy := if origins[p].Listed? then Some(origins[p].i) else None;
            Traced(objects, listed, ca, entries[p := entries[p].(kobject := Some(r))], origins, busy)
    ensures Unread(entries, p) && origins[p].Listed? ==>
              forall q <- origins :: origins[q].Backing? ==> origins[q].i != origins[p].i
  {
    hide Genuine, KeyOf, Idle, Has, Waiting;
    var next := entries[p := entries[p].(kobject := Some(r))];
    forall i: nat
      ensures Waiting(next, origins, i) ==> Waiting(entries, origins, i)
      ensures Waiting(entries, origins, i) && origins[p] != Listed(i) ==> Waiting(next, origins, i)
    {
      WaitingAfterRead(entries, origins, p, r, i);
    }
    if Unread(entries, p) && origins[p].Listed? {
      WaitingAt(entries, origins, p);
    }
  }

  lemma WaitingAt(entries: Entries, origins: Origins, p: nat)
    requires p in origins && origins[p].Listed? && Unread(entries, p)
    ensures Waiting(entries, origins, origins[p].i)
  {
    assert origins[p] == Listed(origins[p].i);
  }

  lemma OriginAdded(entries: Entries, origins: Origins, q: nat, o: Origin, u: Origin, key: ObjectKey, i: nat)
    requires origins.Keys == entries.Keys && q !in entries && !o.Listed?
    ensures Has(origins[q := o], u) <==> Has(origins, u) || u == o
    ensures Waiting(entries[q := KeyedObject(key, None)], origins[q := o], i) <==> Waiting(entries, origins, i)
  {
    var more, next := origins[q := o], entries[q := KeyedObject(key, None)];
    assert more[q] == o;
    if p :| p in origins && origins[p] == u {
      assert more[p] == u;
    }
    if p :| p in origins && origins[p] == Listed(i) && Unread(entries, p) {
      assert more[p] == Listed(i) && Unread(next, p);
    }
    if p :| p in more && more[p] == Listed(i) && Unread(next, p) {
      assert origins[p] == Listed(i) && Unread(entries, p);
    }
  }

  /** The secret of a service comes on the list once more for every configuration. */
  lemma TraceConfig(objects: Objects, listed: seq<ObjectKey>, ca: ObjectKey, entries: Entries, origins: Origins,
                    i: nat, c: string, q: nat)
    requires Traced(objects, listed, ca, entries, origins, Some(i)) && q !in entries
    requires Genuine(objects, listed, Backing(i, c)) && !Has(origins, Backing(i, c)) && !Waiting(entries, origins, i)
    ensures var next := entries[q := KeyedObject(SecretKey(ServiceAt(objects, Config(listed[i], c))), None)];
            Traced(objects, listed, ca, next, origins[q := Backing(i, c)], Some(i)) && !Waiting(next, origins[q := Backing(i, c)], i)
  {
    hide Idle, Has, Waiting, ServiceAt, ConfigsIn;
    var key, o := SecretKey(ServiceAt(objects, Config(listed[i], c))), Backing(i, c);
    forall u: Origin, j: nat
      ensures Has(origins[q := o], u) <==> Has(origins, u) || u == o
      ensures Waiting(entries[q := KeyedObject(key, None)], origins[q := o], j) <==> Waiting(entries, origins, j)
    {
      OriginAdded(entries, origins, q, o, u, key, j);
    }
    forall p <- origins ensures origins[p] != o {
      HasAt(origins, p);
    }
  }

  lemma HasAt(origins: Origins, p: nat)
    requires p in origins
    ensures Has(origins, origins[p])
  {
  }

  lemma TraceFinished(objects: Objects, listed: seq<ObjectKey>, ca: ObjectKey, entries: Entries, origins: Origins, i: nat)
    requires Traced(objects, listed, ca, entries, origins, Some(i))
    requires forall c: string :: Genuine(objects, listed, Backing(i, c)) ==> Has(origins, Backing(i, c))
    ensures Traced(objects, listed, ca, entries, origins, None)
  {
    hide Sourced, Genuine, Idle, Has, Waiting;
    forall o: Origin | Genuine(objects, listed, o)
      ensures Has(origins, o) || Idle(objects, listed, o) || (o.Backing? && Waiting(entries, origins, o.i))
    {
      if o.Backing? && o.i == i {
        assert o == Backing(i, o.name);
      }
    }
  }

  lemma OriginDropped(entries: Entries, origins: Origins, p: nat, o: Origin, i: nat)
    requires origins.Keys == entries.Keys && p in entries && !Unread(entries, p)
    ensures o != origins[p] ==> (Has(origins - {p}, o) <==> Has(origins, o))
    ensures Waiting(entries - {p}, origins - {p}, i) <==> Waiting(entries, origins, i)
  {
    var less, rest := origins - {p}, entries - {p};
    if q :| q in origins && origins[q] == o && o != origins[p] {
      assert less[q] == o;
    }
    if q :| q in less && less[q] == o {
      assert origins[q] == o;
    }
    if q :| q in origins && origins[q] == Listed(i) && Unread(entries, q) {
      assert less[q] == Listed(i) && Unread(rest, q);
    }
    if q :| q in less && less[q] == Listed(i) && Unread(rest, q) {
      assert origins[q] == Listed(i) && Unread(entries, q);
    }
  }

  lemma TraceDropped(objects: Objects, listed: seq<ObjectKey>, ca: ObjectKey, entries: Entries, origins: Origins, p: nat)
    requires p in entries && p in origins && origins[p].Listed?
    requires Traced(objects, listed, ca, entries, origins, Some(origins[p].i)) && !Unread(entries, p)
    requires Idle(objects, listed, origins[p])
    ensures Traced(objects, listed, ca, entries - {p}, origins - {p}, None)
  {
    hide KeyOf, Has, Waiting, Unread;
    var less, rest, i := origins - {p}, entries - {p}, origins[p].i;
    forall o: Origin, j: nat
      ensures o != origins[p] ==> (Has(less, o) <==> Has(origins, o))
      ensures Waiting(rest, less, j) <==> Waiting(entries, origins, j)
    {
      OriginDropped(entries, origins, p, o, j);
    }
    forall o: Origin | Genuine(objects, listed, o)
      ensures Has(less, o) || Idle(objects, listed, o) || (o.Backing? && Waiting(rest, less, o.i))
    {
    }
    assert Complete(objects, listed, rest, less, None);
  }

  // ---- Clashes ----

  /** Some object to be changed is on the list for two reasons. */
  ghost predicate Clash(objects: Objects, listed: seq<ObjectKey>, ca: ObjectKey, d: ChainData) {
    exists o: Origin, u: Origin ::
      && o != u && Genuine(objects, listed, o) && Genuine(objects, listed, u)
      && KeyOf(objects, listed, ca, o) == KeyOf(objects, listed, ca, u)
      && !UpToDate(objects, KeyOf(objects, listed, ca, o), d)
  }

  /** Some object to be changed has two entries. */
  ghost predicate Doubled(objects: Objects, entries: Entries, d: ChainData) {
    exists p <- entries, q <- entries ::
      p != q && entries[p].key == entries[q].key && !UpToDate(objects, entries[p].key, d)
  }

  lemma ChangedHasEntry(objects: Objects, listed: seq<ObjectKey>, ca: ObjectKey, entries: Entries, origins: Origins,
                        d: ChainData, o: Origin)
    requires AllWellKinded(objects) && Webhooks(listed, ca) && Traced(objects, listed, ca, entries, origins, None)
    requires forall p <- entries :: !Unread(entries, p)
    requires Genuine(objects, listed, o) && !UpToDate(objects, KeyOf(objects, listed, ca, o), d)
    ensures Has(origins, o)
  {
    hide UpToDate, ServiceAt, Lookup;
    assert forall i: nat :: !Waiting(entries, origins, i);
    if Idle(objects, listed, o) {
      LookupWellKinded(objects, listed[o.i]);
      NoConfigsUpToDate(objects, listed[o.i], d);
    }
  }

  lemma LookupWellKinded(objects: Objects, key: ObjectKey)
    requires AllWellKinded(objects)
    ensures WellKinded(key, Lookup(objects, key))
  {
  }

  lemma DoubledClashes(objects: Objects, listed: seq<ObjectKey>, ca: ObjectKey, entries: Entries, origins: Origins, d: ChainData)
    requires Sourced(objects, listed, ca, entries, origins) && Doubled(objects, entries, d)
    ensures Clash(objects, listed, ca, d)
  {
    hide UpToDate, Genuine, KeyOf;
    var p, q :| p in entries && q in entries && p != q && entries[p].key == entries[q].key
                && !UpToDate(objects, entries[p].key, d);
    assert origins[p] != origins[q];
    assert Genuine(objects, listed, origins[p]) && Genuine(objects, listed, origins[q]);
  }

  lemma ClashIsDoubled(objects: Objects, listed: seq<ObjectKey>, ca: ObjectKey, entries: Entries, origins: Origins, d: ChainData,
                       o: Origin, u: Origin)
    requires Sourced(objects, listed, ca, entries, origins)
    requires Has(origins, o) && Has(origins, u) && o != u
    requires KeyOf(objects, listed, ca, o) == KeyOf(objects, listed, ca, u)
    requires !UpToDate(objects, KeyOf(objects, listed, ca, o), d)
    ensures Doubled(objects, entries, d)
  {
    hide UpToDate, Genuine, KeyOf;
    var p :| p in origins && origins[p] == o;
    var q :| q in origins && origins[q] == u;
    assert p in entries && q in entries && p != q;
  }

  /** Once reading is done the entries tell of a clash exactly when there is one. */
  lemma DoubledIsClash(objects: Objects, listed: seq<ObjectKey>, ca: ObjectKey, entries: Entries, origins: Origins,
                       d: ChainData)
    requires AllWellKinded(objects) && Webhooks(listed, ca) && Traced(objects, listed, ca, entries, origins, None)
    requires forall p <- entries :: !Unread(entries, p)
    ensures Doubled(objects, entries, d) <==> Clash(objects, listed, ca, d)
  {
    hide UpToDate, Complete, Genuine, KeyOf, Doubled, Has, AllWellKinded, Webhooks, Sourced;
    if Doubled(objects, entries, d) {
      DoubledClashes(objects, listed, ca, entries, origins, d);
    }
    if o, u :| o != u && Genuine(objects, listed, o) && Genuine(objects, listed, u)
               && KeyOf(objects, listed, ca, o) == KeyOf(objects, listed, ca, u)
               && !UpToDate(objects, KeyOf(objects, listed, ca, o), d) {
      ChangedHasEntry(objects, listed, ca, entries, origins, d, o);
      ChangedHasEntry(objects, listed, ca, entries, origins, d, u);
      ClashIsDoubled(objects, listed, ca, entries, origins, d, o, u);
    }
  }

  /**
   * What can be seen before a reconcile: two configurations share a service, or
   * a webhook that has configurations is listed twice.
   */
  ghost predicate Shares(objects: Objects, listed: seq<ObjectKey>) {
    || (exists c <- Configs(objects, KeysOf(listed)), e <- Configs(objects, KeysOf(listed)) ::
          c != e && ServiceAt(objects, c) == ServiceAt(objects, e))
    || exists i, j :: 0 <= i < j < |listed| && listed[i] == listed[j] && ConfigsIn(objects, listed[i]) != {}
  }

  lemma BackingConfig(objects: Objects, listed: seq<ObjectKey>, i: nat, c: string)
    requires Genuine(objects, listed, Backing(i, c))
    ensures i < |listed| && Config(listed[i], c) in Configs(objects, KeysOf(listed))
    ensures ConfigsIn(objects, listed[i]) != {}
  {
    hide ConfigsIn;
    assert listed[i] in KeysOf(listed);
  }

  lemma SharedSecret(objects: Objects, listed: seq<ObjectKey>, i: nat, c: string, j: nat, e: string)
    requires Genuine(objects, listed, Backing(i, c)) && Genuine(objects, listed, Backing(j, e)) && Backing(i, c) != Backing(j, e)
    requires ServiceAt(objects, Config(listed[i], c)) == ServiceAt(objects, Config(listed[j], e))
    ensures Shares(objects, listed)
  {
    hide ConfigsIn, Configs, ServiceAt, Genuine;
    BackingConfig(objects, listed, i, c);
    BackingConfig(objects, listed, j, e);
    if Config(listed[i], c) == Config(listed[j], e) {
      assert i < j || j < i;
    }
  }

  /** Whatever the chain data, a clash takes sharing. */
  lemma ClashShares(objects: Objects, listed: seq<ObjectKey>, ca: ObjectKey, d: ChainData)
    requires AllWellKinded(objects) && Webhooks(listed, ca) && Sound(objects, KeysOf(listed), ca)
    requires Clash(objects, listed, ca, d)
    ensures Shares(objects, listed)
  {
    hide ConfigsIn, Configs, ServiceAt, UpToDate, Agree, Lookup;
    var o, u :| o != u && Genuine(objects, listed, o) && Genuine(objects, listed, u)
                && KeyOf(objects, listed, ca, o) == KeyOf(objects, listed, ca, u)
                && !UpToDate(objects, KeyOf(objects, listed, ca, o), d);
    if o.Backing? && u.Backing? {
      SharedSecret(objects, listed, o.i, o.name, u.i, u.name);
    } else if o.Listed? && u.Listed? {
      LookupWellKinded(objects, listed[o.i]);
      if ConfigsIn(objects, listed[o.i]) == {} {
        NoConfigsUpToDate(objects, listed[o.i], d);
      }
      assert o.i < u.i || u.i < o.i;
    } else if o.Backing? {
      BackingConfig(objects, listed, o.i, o.name);
    } else if u.Backing? {
      BackingConfig(objects, listed, u.i, u.name);
    }
  }

  /** Sharing means that the secret of some configuration is on the list twice. */
  lemma SharesTwice(objects: Objects, listed: seq<ObjectKey>) returns (i: nat, c: string, j: nat, e: string)
    requires Shares(objects, listed)
    ensures Genuine(objects, listed, Backing(i, c)) && Genuine(objects, listed, Backing(j, e)) && Backing(i, c) != Backing(j, e)
    ensures ServiceAt(objects, Config(listed[i], c)) == ServiceAt(objects, Config(listed[j], e))
  {
    hide ConfigsIn, ServiceAt;
    var refs := KeysOf(listed);
    if f, g :| f in Configs(objects, refs) && g in Configs(objects, refs)
               && f != g && ServiceAt(objects, f) == ServiceAt(objects, g) {
      ConfigKey(objects, refs, f);
      ConfigKey(objects, refs, g);
      i :| 0 <= i < |listed| && listed[i] == f.key;
      j :| 0 <= j < |listed| && listed[j] == g.key;
      c, e := f.name, g.name;
    } else {
      var k, l :| 0 <= k < l < |listed| && listed[k] == listed[l] && ConfigsIn(objects, listed[k]) != {};
      var f := SomeOf(ConfigsIn(objects, listed[k]));
      ConfigInKey(objects, listed[k], f);
      i, j, c, e := k, l, f.name, f.name;
    }
  }
}
