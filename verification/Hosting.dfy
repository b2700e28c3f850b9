/**
 * Verification panics on a service certificate that names no host. Where none
 * is stored, none ever will be.
 */
module Hosting {
  import opened Common
  import opened Triple
  import opened ChainOptions
  import opened ChainModel
  import opened ChainFacts
  import opened ChainVerdicts
  import opened ApiServer
  import opened Configuration
  import opened Writing

  /** Every certificate names a host. */
  predicate NamesHosts(pem: PEM) {
    forall c <- CertsIn(pem) :: c.dnsNames != []
  }

  predicate HostedResource(r: Resource) {
    r.content.Secret? && TLS_CERT_KEY in r.content.data ==> NamesHosts(r.content.data[TLS_CERT_KEY])
  }

  predicate HostedOperation(op: Operation) {
    op.Put? ==> HostedResource(op.resource)
  }

  predicate HostedObjects(objects: Objects) {
    forall k <- objects :: HostedResource(objects[k])
  }

  predicate HostedTurns(schedule: seq<Turn>) {
    forall i, j :: 0 <= i < |schedule| && 0 <= j < |schedule[i].ops| ==> HostedOperation(schedule[i].ops[j])
  }

  /** All service certificates in the store name hosts, and all that others will put there do. */
  predicate HostedWorld(objects: Objects, schedule: seq<Turn>) {
    HostedObjects(objects) && HostedTurns(schedule)
  }

  lemma {:induction false} HostedAfter(s: Store, ops: seq<Operation>)
    requires HostedObjects(s.objects) && forall j :: 0 <= j < |ops| ==> HostedOperation(ops[j])
    ensures HostedObjects(ApplyAll(s, ops).objects)
    decreases ops
  {
    hide HostedResource, WellKinded;
    if ops != [] {
      var next := Apply(s, ops[0]);
      assert HostedOperation(ops[0]);
      HostedStored(s, ops[0]);
      HostedAfter(next, ops[1..]);
    }
  }

  lemma HostedStored(s: Store, op: Operation)
    requires HostedObjects(s.objects) && HostedOperation(op)
    ensures HostedObjects(Apply(s, op).objects)
  {
  }

  lemma HostedTurn(s: Store, schedule: seq<Turn>)
    requires HostedWorld(s.objects, schedule)
    ensures HostedWorld(ApplyAll(s, NextTurn(schedule).ops).objects, LaterTurns(schedule))
  {
    hide HostedOperation;
    HostedAfter(s, NextTurn(schedule).ops);
  }

  predicate HostedIssue(i: CertificateIssue) {
    i.hostnames != [] && NamesHosts(i.certPEM)
  }

  predicate HostedChain(d: ChainData) {
    forall n <- d.issued :: HostedIssue(d.issued[n])
  }

  /** Then verification never panics. */
  lemma HostedNeverPanics(d: ChainData)
    requires HostedChain(d)
    ensures !HasNameless(Decoded(d))
    ensures forall o, now :: !MayPanic(o, Decoded(d), now)
  {
    hide InPool, FindRotationDeadlineForCA;
    var e := Decoded(d);
    forall n, b ensures !Nameless(e, n, b) {
      if n in e.issued && ParsesAsCerts(e.issued[n].certPEM) {
        assert HostedIssue(d.issued[n]);
        assert CertsIn(d.issued[n].certPEM)[0] in CertsIn(d.issued[n].certPEM);
      }
    }
  }

  // ---- Updates keep it so ----

  predicate AllNameHosts(certs: seq<Certificate>) {
    forall c <- certs :: c.dnsNames != []
  }

  predicate HostedDecoded(d: ChainData) {
    forall n <- d.issued :: HostedIssue(d.issued[n]) && AllNameHosts(d.issued[n].certs)
  }

  lemma EncodedNamesHosts(certs: seq<Certificate>)
    ensures NamesHosts(EncodedCerts(certs)) <==> AllNameHosts(certs)
  {
    ParseAfterEncode(certs);
  }

  lemma RotatedIssueHosted(o: Options, ca: KeyPair, i: CertificateIssue, key: KeyId, now: Time, mode: Mode)
    requires HostedIssue(i) && AllNameHosts(i.certs)
    ensures var j := RotatedIssue(o, ca, i, key, now, mode); HostedIssue(j) && AllNameHosts(j.certs)
  {
    var pair := SignedKeyPair(ca, i.name, i.hostnames, key, o.certRotateInterval, now);
    EncodedSingle(pair.cert);
    EncodedNamesHosts([pair.cert]);
    EncodedNamesHosts(i.certs + [pair.cert]);
  }

  lemma RotatedHosted(o: Options, d: ChainData, draw: Draw, now: Time)
    requires HostedDecoded(d)
    ensures HostedDecoded(Rotated(o, d, draw, now))
  {
    hide ActionAt, RotatedIssue, HostedIssue, AllNameHosts;
    var ca := NewCA(d.ca.name, draw.ca, o.caRotateInterval, now);
    forall n <- d.issued
      ensures var j := RotatedIssue(o, ca, WithCACert(d.issued[n], ca.cert), LeafKey(draw, n), now, Reset);
              HostedIssue(j) && AllNameHosts(j.certs)
      ensures d.ca.keyPair.Some? ==>
                var j := RotatedIssue(o, d.ca.keyPair.value, d.issued[n], LeafKey(draw, n), now, Append);
                HostedIssue(j) && AllNameHosts(j.certs)
    {
      BundleKeepsHosted(d.issued[n], ca.cert);
      RotatedIssueHosted(o, ca, WithCACert(d.issued[n], ca.cert), LeafKey(draw, n), now, Reset);
      if d.ca.keyPair.Some? {
        RotatedIssueHosted(o, d.ca.keyPair.value, d.issued[n], LeafKey(draw, n), now, Append);
      }
    }
  }

  lemma BundleKeepsHosted(i: CertificateIssue, cert: Certificate)
    requires HostedIssue(i) && AllNameHosts(i.certs)
    ensures HostedIssue(WithCACert(i, cert)) && AllNameHosts(WithCACert(i, cert).certs)
  {
  }

  lemma CleanedHosted(d: ChainData, now: Time)
    requires HostedDecoded(d)
    ensures HostedDecoded(CACleaned(d, now)) && HostedDecoded(CertsCleaned(d, now))
  {
    hide FindCleanUpDeadlineForCACerts, FindCleanUpDeadlineForCerts, Unexpired;
    forall n <- d.issued
      ensures HostedIssue(WithCerts(d.issued[n], CleanedUp(d.issued[n].certs, now)))
      ensures AllNameHosts(CleanedUp(d.issued[n].certs, now))
    {
      var certs := d.issued[n].certs;
      forall c <- CleanedUp(certs, now) ensures c.dnsNames != [] {
        UnexpiredMember(certs, now, c);
      }
      EncodedNamesHosts(CleanedUp(certs, now));
    }
  }

  /** An update leaves only certificates that name hosts, if it finds only such. */
  lemma UpdateKeepsHosted(o: Options, d: ChainData, draw: Draw, now: Time)
    requires HostedChain(d)
    ensures HostedChain(Step(o, d, draw, now))
  {
    hide Rotated, CACleaned, CertsCleaned, HostedIssue;
    DecodedHosted(d);
    var r := Rotated(o, Decoded(d), draw, now);
    RotatedHosted(o, Decoded(d), draw, now);
    CleanedHosted(r, now);
    CleanedHosted(CACleaned(r, now), now);
  }

  lemma DecodedHosted(d: ChainData)
    requires HostedChain(d)
    ensures HostedDecoded(Decoded(d))
  {
    forall n <- d.issued ensures HostedIssue(DecodedIssue(d.issued[n])) && AllNameHosts(DecodedIssue(d.issued[n]).certs) {
      assert HostedIssue(d.issued[n]);
    }
  }

  lemma HostedFromChain(key: ObjectKey, r: Resource, d: ChainData)
    requires HostedResource(r) && HostedChain(d)
    ensures HostedResource(FromChain(key, r, d))
  {
    hide ServiceHostname, NamespacedName, NamesHosts, MappedWebhooks;
  }

  lemma HostedPut(s: Store, schedule: seq<Turn>, key: ObjectKey, r: Resource)
    requires HostedWorld(s.objects, schedule) && HostedResource(r)
    ensures HostedWorld(Stored(s, key, r).objects, schedule)
  {
    hide HostedTurns;
  }
}
