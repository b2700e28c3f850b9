/**
 * The invariant of a chain between updates: established by any full rotation,
 * whatever data it starts from, and kept by every later update.
 */
module ChainInvariant {
  import opened Common
  import opened Triple
  import opened ChainOptions
  import opened ChainModel
  import opened ChainFacts
  import FloatDuration

  /** Options in range, rotating by the second at the fastest, and within float64 reach. */
  predicate Workable(o: Options) {
    && InRange(o)
    && SECOND <= o.certRotateInterval
    && o.caRotateInterval + o.certRotateInterval + 8 * SECOND < FloatDuration.DURATION_LIMIT
  }

  predicate AllHosted(d: ChainData) {
    forall n <- d.issued :: d.issued[n].hostnames != []
  }

  /** A usable CA key pair, valid at now, whose PEM data decodes to it. */
  predicate CurrentCA(o: Options, ca: CA, now: Time) {
    && ca.keyPair.Some?
    && DecodedCA(ca) == ca
    && var pair := ca.keyPair.value;
       && pair.cert.publicKey == pair.key
       && pair.cert.issuerKey == pair.key
       && pair.cert.subject == ca.name && pair.cert.issuer == ca.name
       && pair.cert.isCA
       && pair.cert.NotBefore() <= now < pair.cert.NotAfter()
       && pair.cert.NotAfter() - pair.cert.NotBefore() <= o.caRotateInterval + SECOND
  }

  predicate SignedBy(c: Certificate, ca: KeyPair) {
    && c.issuer == ca.cert.subject
    && c.issuerKey == ca.key
    && c.notBeforeSeconds == ca.cert.notBeforeSeconds
  }

  /** A server certificate signed by the current CA, no later than now, for a time the options allow. */
  predicate IssuedBy(o: Options, c: Certificate, ca: KeyPair, name: string, hostnames: seq<string>, now: Time) {
    && SignedBy(c, ca)
    && !c.isCA
    && c.subject == name
    && c.dnsNames == hostnames
    && c.notAfterSeconds <= Seconds(now + o.certRotateInterval)
    && c.NotAfter() <= ca.cert.NotAfter() + o.certRotateInterval
  }

  predicate Sorted(certs: seq<Certificate>) {
    forall j, k :: 0 <= j < k < |certs| ==> certs[j].notAfterSeconds <= certs[k].notAfterSeconds
  }

  /** The issue of one service after the rotations of an update at now. */
  predicate CurrentIssue(o: Options, i: CertificateIssue, ca: KeyPair, now: Time) {
    && CoherentIssue(i)
    && i.hostnames != []
    && i.certs != []
    && i.key == Some(Last(i.certs).publicKey)
    && Last(i.certs).NotAfter() > now
    && Sorted(i.certs)
    && (forall c <- i.certs :: IssuedBy(o, c, ca, i.name, i.hostnames, now))
    && forall b <- i.caCerts :: i.caCerts[b] != [] && Last(i.caCerts[b]) == ca.cert
  }

  predicate Current(o: Options, d: ChainData, now: Time) {
    && CurrentCA(o, d.ca, now)
    && forall n <- d.issued :: CurrentIssue(o, d.issued[n], d.ca.keyPair.value, now)
  }

  predicate NothingExpired(certs: seq<Certificate>, now: Time) {
    forall c <- certs :: c.NotAfter() > now
  }

  predicate BundlesUnexpired(d: ChainData, now: Time) {
    forall n <- d.issued, b <- d.issued[n].caCerts :: NothingExpired(d.issued[n].caCerts[b], now)
  }

  predicate CertsUnexpired(d: ChainData, now: Time) {
    forall n <- d.issued :: NothingExpired(d.issued[n].certs, now)
  }

  /** The invariant: what holds right after an update at now. */
  predicate Inv(o: Options, d: ChainData, now: Time) {
    Current(o, d, now) && BundlesUnexpired(d, now) && CertsUnexpired(d, now)
  }

  // ---- Each branch of update leaves current data ----

  lemma FreshPair(o: Options, name: string, key: KeyId, now: Time)
    requires Workable(o)
    ensures var cert := NewCA(name, key, o.caRotateInterval, now).cert;
            && cert.NotBefore() <= now < cert.NotAfter()
            && cert.NotAfter() - cert.NotBefore() <= o.caRotateInterval + SECOND
  {
  }

  lemma ResetIsCurrent(o: Options, i: CertificateIssue, ca: KeyPair, key: KeyId, now: Time)
    requires Workable(o) && CoherentIssue(i) && i.hostnames != [] && now < ca.cert.NotAfter()
    ensures CurrentIssue(o, RotatedIssue(o, ca, WithCACert(i, ca.cert), key, now, Reset), ca, now)
  {
    hide DecodedIssue, DecodedKeyPair, EncodedCerts, CertsIn;
    var j := WithCACert(i, ca.cert);
    CoherentWithCACert(i, ca.cert);
    CoherentKeys(j, SignedKeyPair(ca, i.name, i.hostnames, key, o.certRotateInterval, now));
  }

  lemma RotatedAllIsCurrent(o: Options, d: ChainData, draw: Draw, now: Time)
    requires Workable(o) && Coherent(d) && AllHosted(d)
    ensures Current(o, RotatedAll(o, d, draw, now), now)
  {
    CoherentIssues(d);
    var ca := NewCA(d.ca.name, draw.ca, o.caRotateInterval, now);
    FreshPair(o, d.ca.name, draw.ca, now);
    CoherentCA(d.ca, ca);
    forall n <- d.issued
      ensures CurrentIssue(o, RotatedAll(o, d, draw, now).issued[n], ca, now)
    {
      ResetIsCurrent(o, d.issued[n], ca, LeafKey(draw, n), now);
    }
  }

  lemma AppendedIsSorted(certs: seq<Certificate>, c: Certificate)
    requires Sorted(certs) && forall e <- certs :: e.notAfterSeconds <= c.notAfterSeconds
    ensures Sorted(certs + [c])
  {
    assert forall j :: 0 <= j < |certs| ==> certs[j] in certs;
  }

  lemma AppendedIsCurrent(o: Options, i: CertificateIssue, ca: KeyPair, key: KeyId, prior: Time, now: Time)
    requires Workable(o) && CurrentIssue(o, i, ca, prior) && prior <= now < ca.cert.NotAfter()
    ensures CurrentIssue(o, RotatedIssue(o, ca, i, key, now, Append), ca, now)
  {
    hide Sorted, DecodedIssue, DecodedKeyPair, EncodedCerts, CertsIn, CoherentIssue, WithKeyReset;
    var pair := SignedKeyPair(ca, i.name, i.hostnames, key, o.certRotateInterval, now);
    CoherentKeys(i, pair);
    AppendedIsSorted(i.certs, pair.cert);
  }

  /** The rotation deadlines are those of the CA certificate and of some last issued certificate. */
  lemma MeasurableCA(o: Options, d: ChainData, now: Time)
    requires Workable(o) && CurrentCA(o, d.ca, now)
    ensures CACert(d).Some? && Measurable(CACert(d).value, o.caOverlapInterval)
  {
    hide DecodedCA;
  }

  lemma CurrentCADeadline(o: Options, d: ChainData, now: Time)
    requires Workable(o) && Current(o, d, now) && HasBundle(d)
    ensures FindRotationDeadlineForCA(o, d) == NextRotationDeadline(CACert(d).value, o.caOverlapInterval)
    ensures FindRotationDeadlineForCA(o, d) <= CACert(d).value.NotAfter()
  {
    hide FindRotationDeadlineForCA, NextRotationDeadline, Workable, CurrentCA, HasBundle, Measurable, CoherentIssue, IssuedBy, Sorted;
    MeasurableCA(o, d, now);
    CommonCADeadline(o, d, CACert(d).value);
    DeadlineNear(CACert(d).value, o.caOverlapInterval);
  }

  lemma CurrentCertDeadline(o: Options, d: ChainData, n: string, now: Time)
    requires Workable(o) && Current(o, d, now) && n in d.issued
    ensures d.issued[n].certs != []
    ensures FindRotationDeadlineForCerts(o, d) <= Last(d.issued[n].certs).NotAfter()
  {
    CertDeadline(o, d);
    MeasurableLeaf(o, d, n, now);
    DeadlineNear(Last(d.issued[n].certs), o.certOverlapInterval);
  }

  lemma MeasurableLeaf(o: Options, d: ChainData, n: string, now: Time)
    requires Workable(o) && Current(o, d, now) && n in d.issued
    ensures Measurable(CACert(d).value, o.caOverlapInterval)
    ensures Measurable(Last(d.issued[n].certs), o.certOverlapInterval)
  {
    var leaf := Last(d.issued[n].certs);
    assert leaf in d.issued[n].certs;
    assert leaf.NotBefore() == CACert(d).value.NotBefore();
  }

  lemma RotatedCertsIsCurrent(o: Options, d: ChainData, draw: Draw, prior: Time, now: Time)
    requires Workable(o) && Current(o, d, prior) && prior <= now < CACert(d).value.NotAfter()
    ensures Current(o, RotatedCerts(o, d, d.ca.keyPair.value, draw, now, Append), now)
  {
    hide CurrentIssue, RotatedIssue, Workable, DecodedCA;
    var ca := d.ca.keyPair.value;
    forall n <- d.issued ensures CurrentIssue(o, RotatedIssue(o, ca, d.issued[n], LeafKey(draw, n), now, Append), ca, now) {
      AppendedIsCurrent(o, d.issued[n], ca, LeafKey(draw, n), prior, now);
    }
  }

  /** Data stay current until a certificate in use expires. */
  lemma StaysCurrent(o: Options, d: ChainData, prior: Time, now: Time)
    requires Current(o, d, prior) && prior <= now < CACert(d).value.NotAfter()
    requires forall n <- d.issued :: now < Last(d.issued[n].certs).NotAfter()
    ensures Current(o, d, now)
  {
    hide DecodedCA, CoherentIssue, Sorted;
  }

  lemma RotatedIsCurrent(o: Options, d: ChainData, draw: Draw, prior: Time, now: Time)
    requires Workable(o) && Inv(o, d, prior) && HasBundle(d) && prior <= now
    requires ActionAt(o, d, now) != RotateAll
    ensures Current(o, Rotated(o, d, draw, now), now)
  {
    hide FindRotationDeadlineForCA, FindRotationDeadlineForCerts, Verifies, CurrentIssue, RotatedCerts, Workable, HasBundle,
      BundlesUnexpired, CertsUnexpired, DecodedCA;
    CurrentCADeadline(o, d, prior);
    if ActionAt(o, d, now) == RotateCerts {
      RotatedCertsIsCurrent(o, d, draw, prior, now);
    } else {
      forall n <- d.issued ensures d.issued[n].certs != [] && now < Last(d.issued[n].certs).NotAfter() {
        CurrentCertDeadline(o, d, n, prior);
      }
      StaysCurrent(o, d, prior, now);
    }
  }

  // ---- Clean-up keeps data current and removes exactly what expired ----

  lemma CACleanedIsCurrent(o: Options, d: ChainData, now: Time)
    requires Current(o, d, now)
    ensures Current(o, CACleaned(d, now), now) && BundlesUnexpired(CACleaned(d, now), now)
  {
    var c := CACleaned(d, now);
    if FindCleanUpDeadlineForCACerts(d) <= now {
      forall n <- d.issued
        ensures CurrentIssue(o, c.issued[n], d.ca.keyPair.value, now)
        ensures forall b <- c.issued[n].caCerts :: NothingExpired(c.issued[n].caCerts[b], now)
      {
        var i := d.issued[n];
        CoherentBundlesCleanedUp(i, now);
        forall b <- i.caCerts
          ensures CleanedUp(i.caCerts[b], now) != [] && Last(CleanedUp(i.caCerts[b], now)) == d.ca.keyPair.value.cert
          ensures NothingExpired(CleanedUp(i.caCerts[b], now), now)
        {
          CleanedUpKeepsLast(i.caCerts[b], now);
        }
      }
    } else {
      forall n <- d.issued, b <- d.issued[n].caCerts, cert <- d.issued[n].caCerts[b]
        ensures cert.NotAfter() > now
      {
        CAExpiration(d, n, b, cert);
      }
    }
  }

  lemma {:induction false} UnexpiredSorted(certs: seq<Certificate>, now: Time)
    requires Sorted(certs)
    ensures Sorted(Unexpired(certs, now))
  {
    if certs != [] {
      var rest := certs[1..];
      assert Sorted(rest) by {
        forall j, k | 0 <= j < k < |rest| ensures rest[j].notAfterSeconds <= rest[k].notAfterSeconds {
          assert rest[j] == certs[j + 1] && rest[k] == certs[k + 1];
        }
      }
      UnexpiredSorted(rest, now);
      var u := Unexpired(rest, now);
      forall k | 0 <= k < |u| ensures certs[0].notAfterSeconds <= u[k].notAfterSeconds {
        UnexpiredMember(rest, now, u[k]);
        var j :| 0 <= j < |rest| && rest[j] == u[k];
        assert certs[j + 1] == u[k];
      }
    }
  }

  lemma CertsCleanedIsCurrent(o: Options, d: ChainData, now: Time)
    requires Current(o, d, now)
    ensures Current(o, CertsCleaned(d, now), now) && CertsUnexpired(CertsCleaned(d, now), now)
    ensures BundlesUnexpired(d, now) ==> BundlesUnexpired(CertsCleaned(d, now), now)
  {
    if FindCleanUpDeadlineForCerts(d) <= now {
      forall n <- d.issued
        ensures CurrentIssue(o, WithCerts(d.issued[n], CleanedUp(d.issued[n].certs, now)), d.ca.keyPair.value, now)
        ensures NothingExpired(CleanedUp(d.issued[n].certs, now), now)
      {
        var i := d.issued[n];
        CleanedUpKeepsLast(i.certs, now);
        UnexpiredSorted(i.certs, now);
        CoherentWithCerts(i, CleanedUp(i.certs, now));
      }
    } else {
      forall n <- d.issued, cert <- d.issued[n].certs ensures cert.NotAfter() > now {
        CertExpiration(d, n, cert);
      }
    }
  }

  /** An update renames nothing and adds or drops no issue and no bundle. */
  predicate SameShape(d: ChainData, e: ChainData) {
    && d.issued.Keys == e.issued.Keys
    && d.ca.name == e.ca.name
    && forall n <- d.issued :: SameIssue(d.issued[n], e.issued[n])
  }

  predicate SameIssue(i: CertificateIssue, j: CertificateIssue) {
    && i.name == j.name
    && i.hostnames == j.hostnames
    && i.caCerts.Keys == j.caCerts.Keys
  }

  lemma ShapeCleaned(d: ChainData, now: Time)
    ensures SameShape(d, CACleaned(d, now)) && SameShape(d, CertsCleaned(d, now))
  {
  }

  lemma ShapeRotatedCerts(o: Options, d: ChainData, ca: KeyPair, draw: Draw, now: Time, mode: Mode)
    ensures SameShape(d, RotatedCerts(o, d, ca, draw, now, mode))
  {
  }

  lemma ShapeRotatedAll(o: Options, d: ChainData, draw: Draw, now: Time)
    ensures SameShape(d, RotatedAll(o, d, draw, now))
  {
    var ca := NewCA(d.ca.name, draw.ca, o.caRotateInterval, now);
    var e := WithCAKeyPair(d, ca);
    assert SameShape(d, e);
    ShapeRotatedCerts(o, e, ca, draw, now, Reset);
    ShapeTransitive(d, e, RotatedAll(o, d, draw, now));
  }

  lemma ShapeTransitive(d: ChainData, e: ChainData, f: ChainData)
    requires SameShape(d, e) && SameShape(e, f)
    ensures SameShape(d, f)
  {
    forall n <- d.issued ensures SameIssue(d.issued[n], f.issued[n]) {
      assert SameIssue(d.issued[n], e.issued[n]) && SameIssue(e.issued[n], f.issued[n]);
    }
  }

  lemma ShapeSame(d: ChainData)
    ensures SameShape(d, d)
  {
  }

  lemma ShapeRotated(o: Options, d: ChainData, draw: Draw, now: Time)
    ensures SameShape(d, Rotated(o, d, draw, now))
  {
    hide ActionAt, RotatedAll, RotatedCerts, SameShape;
    ShapeSame(d);
    ShapeRotatedAll(o, d, draw, now);
    if d.ca.keyPair.Some? {
      ShapeRotatedCerts(o, d, d.ca.keyPair.value, draw, now, Append);
    }
  }

  lemma ShapeKept(o: Options, d: ChainData, draw: Draw, now: Time)
    ensures SameShape(d, Updated(o, d, draw, now))
  {
    hide Rotated, CACleaned, CertsCleaned, SameShape;
    ShapeRotated(o, d, draw, now);
    var r := Rotated(o, d, draw, now);
    ShapeCleaned(r, now);
    ShapeCleaned(CACleaned(r, now), now);
    ShapeTransitive(d, r, CACleaned(r, now));
    ShapeTransitive(d, CACleaned(r, now), Updated(o, d, draw, now));
  }

  lemma SameShapeFacts(d: ChainData, e: ChainData)
    requires SameShape(d, e)
    ensures HasBundle(d) <==> HasBundle(e)
    ensures AllNamed(d) <==> AllNamed(e)
    ensures AllHosted(d) <==> AllHosted(e)
  {
    assert forall n <- d.issued :: SameIssue(d.issued[n], e.issued[n]);
    forall n <- d.issued ensures |d.issued[n].caCerts| > 0 <==> |e.issued[n].caCerts| > 0 {
      assert SameIssue(d.issued[n], e.issued[n]);
      assert |d.issued[n].caCerts| == |d.issued[n].caCerts.Keys|;
      assert |e.issued[n].caCerts| == |e.issued[n].caCerts.Keys|;
    }
  }

  // ---- The invariant ----

  /** Every update that rotates everything establishes the invariant, from any data. */
  lemma InvEstablished(o: Options, d: ChainData, draw: Draw, now: Time)
    requires Workable(o) && Coherent(d) && AllHosted(d)
    requires ActionAt(o, d, now) == RotateAll
    ensures Inv(o, Updated(o, d, draw, now), now)
  {
    RotatedAllIsCurrent(o, d, draw, now);
    CACleanedIsCurrent(o, Rotated(o, d, draw, now), now);
    CertsCleanedIsCurrent(o, CACleaned(Rotated(o, d, draw, now), now), now);
  }

  /** Every update keeps it, whichever branch it takes and however late it comes. */
  lemma InvKept(o: Options, d: ChainData, draw: Draw, prior: Time, now: Time)
    requires Workable(o) && Inv(o, d, prior) && HasBundle(d) && prior <= now
    ensures Inv(o, Updated(o, d, draw, now), now)
  {
    CoherentIssues(d);
    if ActionAt(o, d, now) == RotateAll {
      InvEstablished(o, d, draw, now);
    } else {
      RotatedIsCurrent(o, d, draw, prior, now);
      CACleanedIsCurrent(o, Rotated(o, d, draw, now), now);
      CertsCleanedIsCurrent(o, CACleaned(Rotated(o, d, draw, now), now), now);
    }
  }
}
