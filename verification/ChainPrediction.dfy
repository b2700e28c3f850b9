/** What the returned time promises, and what an update repairs. */
module ChainPrediction {
  import opened Common
  import opened Triple
  import opened ChainOptions
  import opened ChainModel
  import opened ChainFacts
  import opened ChainInvariant
  import FloatDuration

  // ---- Clean-up, from any data ----

  /** The last certificate of every list is still unexpired. */
  predicate LastsUnexpired(d: ChainData, now: Time) {
    forall n <- d.issued ::
      && d.issued[n].certs != [] && Last(d.issued[n].certs).NotAfter() > now
      && forall b <- d.issued[n].caCerts :: d.issued[n].caCerts[b] != [] && Last(d.issued[n].caCerts[b]).NotAfter() > now
  }

  /** Then cleaning up, when it falls due and when not, filters every bundle */
  lemma CACleanedFilters(d: ChainData, now: Time)
    requires LastsUnexpired(d, now)
    ensures forall n <- d.issued, b <- d.issued[n].caCerts ::
              CACleaned(d, now).issued[n].caCerts[b] == Unexpired(d.issued[n].caCerts[b], now)
    ensures LastsUnexpired(CACleaned(d, now), now)
  {
    forall n <- d.issued, b <- d.issued[n].caCerts
      ensures CACleaned(d, now).issued[n].caCerts[b] == Unexpired(d.issued[n].caCerts[b], now)
      ensures CACleaned(d, now).issued[n].caCerts[b] != []
      ensures Last(CACleaned(d, now).issued[n].caCerts[b]) == Last(d.issued[n].caCerts[b])
    {
      var certs := d.issued[n].caCerts[b];
      CleanedUpKeepsLast(certs, now);
      if now < FindCleanUpDeadlineForCACerts(d) {
        forall i | 0 <= i < |certs| ensures certs[i].NotAfter() > now {
          CAExpiration(d, n, b, certs[i]);
        }
        UnexpiredSame(certs, now);
      }
    }
  }

  /** and every list of issued certificates. */
  lemma CertsCleanedFilters(d: ChainData, now: Time)
    requires LastsUnexpired(d, now)
    ensures forall n <- d.issued :: CertsCleaned(d, now).issued[n].certs == Unexpired(d.issued[n].certs, now)
    ensures LastsUnexpired(CertsCleaned(d, now), now)
  {
    forall n <- d.issued
      ensures CertsCleaned(d, now).issued[n].certs == Unexpired(d.issued[n].certs, now)
      ensures CertsCleaned(d, now).issued[n].certs != []
      ensures Last(CertsCleaned(d, now).issued[n].certs) == Last(d.issued[n].certs)
    {
      var certs := d.issued[n].certs;
      CleanedUpKeepsLast(certs, now);
      if now < FindCleanUpDeadlineForCerts(d) {
        forall i | 0 <= i < |certs| ensures certs[i].NotAfter() > now {
          CertExpiration(d, n, certs[i]);
        }
        UnexpiredSame(certs, now);
      }
    }
  }

  // ---- The four deadlines of data at rest ----

  ghost function NextDeadline(o: Options, d: ChainData): Time {
    Min4(FindRotationDeadlineForCA(o, d), FindRotationDeadlineForCerts(o, d),
         FindCleanUpDeadlineForCACerts(d), FindCleanUpDeadlineForCerts(d))
  }

  /** Each deadline depends on one half of the data. */
  lemma BundlesDecide(o: Options, d: ChainData, e: ChainData)
    requires d.issued.Keys == e.issued.Keys
    requires forall n <- d.issued :: d.issued[n].caCerts == e.issued[n].caCerts
    ensures FindRotationDeadlineForCA(o, d) == FindRotationDeadlineForCA(o, e)
    ensures FindCleanUpDeadlineForCACerts(d) == FindCleanUpDeadlineForCACerts(e)
  {
    assert HasEmptyBundle(d) <==> HasEmptyBundle(e);
    assert CADeadlines(o, d) == CADeadlines(o, e);
    assert CAExpirations(d) == CAExpirations(e);
  }

  lemma LastCertsDecide(o: Options, d: ChainData, e: ChainData)
    requires d.issued.Keys == e.issued.Keys
    requires forall n <- d.issued :: LastCert(d.issued[n].certs) == LastCert(e.issued[n].certs)
    ensures FindRotationDeadlineForCerts(o, d) == FindRotationDeadlineForCerts(o, e)
  {
    assert forall n <- d.issued :: d.issued[n].certs == [] <==> e.issued[n].certs == [];
    assert CertDeadlines(o, d) == CertDeadlines(o, e);
  }

  lemma LastBundlesDecide(o: Options, d: ChainData, e: ChainData)
    requires d.issued.Keys == e.issued.Keys
    requires forall n <- d.issued :: d.issued[n].caCerts.Keys == e.issued[n].caCerts.Keys
    requires forall n <- d.issued, b <- d.issued[n].caCerts :: LastCert(d.issued[n].caCerts[b]) == LastCert(e.issued[n].caCerts[b])
    ensures FindRotationDeadlineForCA(o, d) == FindRotationDeadlineForCA(o, e)
  {
    hide NextRotationDeadline;
    assert forall n <- d.issued, b <- d.issued[n].caCerts :: d.issued[n].caCerts[b] == [] <==> e.issued[n].caCerts[b] == [];
    assert HasEmptyBundle(d) <==> HasEmptyBundle(e);
    assert CADeadlines(o, d) == CADeadlines(o, e);
  }

  lemma CACleanedKeepsRest(d: ChainData, now: Time)
    ensures CACleaned(d, now).issued.Keys == d.issued.Keys
    ensures forall n <- d.issued :: CACleaned(d, now).issued[n].certs == d.issued[n].certs
    ensures forall n <- d.issued :: CACleaned(d, now).issued[n].caCerts.Keys == d.issued[n].caCerts.Keys
  {
    hide FindCleanUpDeadlineForCACerts;
  }

  lemma CertsCleanedKeepsRest(d: ChainData, now: Time)
    ensures CertsCleaned(d, now).issued.Keys == d.issued.Keys
    ensures forall n <- d.issued :: CertsCleaned(d, now).issued[n].caCerts == d.issued[n].caCerts
  {
    hide FindCleanUpDeadlineForCerts;
  }

  lemma DeadlinesAfterCACleanUp(o: Options, d: ChainData, now: Time)
    requires LastsUnexpired(d, now)
    ensures FindRotationDeadlineForCA(o, CACleaned(d, now)) == FindRotationDeadlineForCA(o, d)
    ensures FindRotationDeadlineForCerts(o, CACleaned(d, now)) == FindRotationDeadlineForCerts(o, d)
  {
    hide CACleaned, FindRotationDeadlineForCA, FindRotationDeadlineForCerts, Unexpired;
    var c := CACleaned(d, now);
    CACleanedKeepsRest(d, now);
    CACleanedFilters(d, now);
    forall n <- d.issued, b <- d.issued[n].caCerts
      ensures LastCert(d.issued[n].caCerts[b]) == LastCert(c.issued[n].caCerts[b])
    {
      UnexpiredLast(d.issued[n].caCerts[b], now);
    }
    LastBundlesDecide(o, d, c);
    LastCertsDecide(o, c, d);
  }

  lemma DeadlinesAfterCertCleanUp(o: Options, d: ChainData, now: Time)
    requires LastsUnexpired(d, now)
    ensures FindRotationDeadlineForCerts(o, CertsCleaned(d, now)) == FindRotationDeadlineForCerts(o, d)
    ensures FindRotationDeadlineForCA(o, CertsCleaned(d, now)) == FindRotationDeadlineForCA(o, d)
    ensures FindCleanUpDeadlineForCACerts(CertsCleaned(d, now)) == FindCleanUpDeadlineForCACerts(d)
  {
    hide CertsCleaned, Unexpired, FindRotationDeadlineForCA, FindRotationDeadlineForCerts, FindCleanUpDeadlineForCACerts;
    var c := CertsCleaned(d, now);
    CertsCleanedKeepsRest(d, now);
    CertsCleanedFilters(d, now);
    forall n <- d.issued ensures LastCert(c.issued[n].certs) == LastCert(d.issued[n].certs) {
      UnexpiredLast(d.issued[n].certs, now);
    }
    LastCertsDecide(o, c, d);
    BundlesDecide(o, c, d);
  }

  /**
   * Inside an update no list loses its last certificate, so the rotation
   * deadlines found before cleaning up still hold after it: the returned time
   * is the earliest deadline of the resulting data.
   */
  lemma ReturnedTimeIsNextDeadline(o: Options, d: ChainData, draw: Draw, now: Time)
    requires LastsUnexpired(Rotated(o, d, draw, now), now)
    ensures UpdateAt(o, d, draw, now) == NextDeadline(o, Updated(o, d, draw, now))
    ensures LastsUnexpired(Updated(o, d, draw, now), now)
  {
    var r := Rotated(o, d, draw, now);
    var c := CACleaned(r, now);
    CACleanedFilters(r, now);
    DeadlinesAfterCACleanUp(o, r, now);
    CertsCleanedFilters(c, now);
    DeadlinesAfterCertCleanUp(o, c, now);
  }

  lemma InvLastsUnexpired(o: Options, d: ChainData, now: Time)
    requires Current(o, d, now)
    ensures LastsUnexpired(d, now)
  {
  }

  // ---- Verification ----

  lemma {:induction false} FoundCertsAreInPool(pem: PEM, c: Certificate)
    requires c in CertsIn(pem)
    ensures InPool(c, pem)
  {
    if ClaimsCertificate(pem[0]) && c == pem[0].der.cert {
      assert pem[0].der == CertificateDer(c);
    } else {
      FoundCertsAreInPool(pem[1..], c);
      var i :| 0 <= i < |pem[1..]| && ClaimsCertificate(pem[1..][i]) && pem[1..][i].der == CertificateDer(c);
      assert pem[i + 1].der == CertificateDer(c);
    }
  }

  /** Current data verifies for as long as the CA certificate and every first certificate last. */
  lemma CurrentVerifies(o: Options, d: ChainData, prior: Time, now: Time)
    requires Current(o, d, prior) && prior <= now <= CACert(d).value.NotAfter()
    requires forall n <- d.issued :: now <= d.issued[n].certs[0].NotAfter()
    ensures Verifies(d, now)
  {
    var ca := d.ca.keyPair.value;
    forall n <- d.issued, b <- d.issued[n].caCertPEM
      ensures LastCert(Bundle(d.issued[n], b)) == CACert(d)
      ensures TLSVerifies(d.issued[n].certPEM, d.issued[n].keyPEM, d.issued[n].caCertPEM[b], now)
    {
      var i := d.issued[n];
      assert CurrentIssue(o, i, ca, prior);
      assert b in i.caCerts && i.caCerts[b] == CertsIn(i.caCertPEM[b]);
      assert Last(i.caCerts[b]) == ca.cert;
      CurrentIssueDecodes(o, i, ca, prior);
      var leaf := i.certs[0];
      assert IssuedBy(o, leaf, ca, i.name, i.hostnames, prior);
      FoundCertsAreInPool(i.caCertPEM[b], ca.cert);
      assert Vouches(ca.cert, leaf, now);
    }
  }

  lemma CurrentIssueDecodes(o: Options, i: CertificateIssue, ca: KeyPair, now: Time)
    requires CurrentIssue(o, i, ca, now)
    ensures ParsedKey(i.keyPEM).Some? && ParsesAsCerts(i.certPEM) && CertsIn(i.certPEM) == i.certs
  {
    assert DecodedKeyPair(i.keyPEM, i.certPEM) == (i.key, i.certs);
  }

  lemma InvVerifies(o: Options, d: ChainData, now: Time)
    requires Inv(o, d, now)
    ensures Verifies(d, now)
  {
    forall n <- d.issued ensures now <= d.issued[n].certs[0].NotAfter() {
      assert d.issued[n].certs[0] in d.issued[n].certs;
    }
    CurrentVerifies(o, d, now, now);
  }

  // ---- The returned time is exact ----

  /** The keys that an update taking the given action uses are not in the data yet. */
  predicate NewKeys(d: ChainData, draw: Draw, action: Action) {
    && (action == RotateAll && d.ca.keyPair.Some? ==> draw.ca != d.ca.keyPair.value.key)
    && (action != Keep ==> forall n <- d.issued :: d.issued[n].key != Some(LeafKey(draw, n)))
  }

  lemma VerifiesUntilDeadline(o: Options, d: ChainData, prior: Time, now: Time)
    requires Inv(o, d, prior) && HasBundle(d) && prior <= now
    requires now <= FindCleanUpDeadlineForCACerts(d) && now <= FindCleanUpDeadlineForCerts(d)
    ensures Verifies(d, now)
  {
    var n :| n in d.issued && |d.issued[n].caCerts| > 0;
    var b := SomeOf(d.issued[n].caCerts.Keys);
    assert Last(d.issued[n].caCerts[b]) == CACert(d).value;
    CAExpiration(d, n, b, CACert(d).value);
    forall n <- d.issued ensures now <= d.issued[n].certs[0].NotAfter() {
      CertExpiration(d, n, d.issued[n].certs[0]);
    }
    CurrentVerifies(o, d, prior, now);
  }

  /** Before the next deadline an update has nothing to do. */
  lemma QuietUntilDeadline(o: Options, d: ChainData, draw: Draw, prior: Time, now: Time)
    requires Inv(o, d, prior) && HasBundle(d) && prior <= now < NextDeadline(o, d)
    ensures Updated(o, d, draw, now) == d
    ensures UpdateAt(o, d, draw, now) == NextDeadline(o, d)
  {
    hide FindRotationDeadlineForCA, FindRotationDeadlineForCerts, FindCleanUpDeadlineForCACerts, FindCleanUpDeadlineForCerts,
      Verifies, Inv, HasBundle, RotatedAll, RotatedCerts, CleanedUpCACerts, CleanedUpCerts;
    VerifiesUntilDeadline(o, d, prior, now);
    assert ActionAt(o, d, now) == Keep;
  }

  lemma ExpiredLeavesBundle(d: ChainData, n: string, b: string, j: nat, now: Time)
    requires n in d.issued && b in d.issued[n].caCerts && j < |d.issued[n].caCerts[b]|
    requires d.issued[n].caCerts[b][j].NotAfter() <= now < Last(d.issued[n].caCerts[b]).NotAfter()
    ensures CertsCleaned(CACleaned(d, now), now) != d
  {
    hide FindCleanUpDeadlineForCACerts, FindCleanUpDeadlineForCerts;
    var certs := d.issued[n].caCerts[b];
    CAExpiration(d, n, b, certs[j]);
    UnexpiredSame(certs, now);
    assert CertsCleaned(CACleaned(d, now), now).issued[n].caCerts[b] == CleanedUp(certs, now);
  }

  lemma ExpiredLeavesCerts(d: ChainData, n: string, j: nat, now: Time)
    requires n in d.issued && j < |d.issued[n].certs|
    requires d.issued[n].certs[j].NotAfter() <= now < Last(d.issued[n].certs).NotAfter()
    ensures CertsCleaned(CACleaned(d, now), now) != d
  {
    hide FindCleanUpDeadlineForCACerts, FindCleanUpDeadlineForCerts;
    var certs := d.issued[n].certs;
    CertExpiration(CACleaned(d, now), n, certs[j]);
    UnexpiredSame(certs, now);
    assert CertsCleaned(CACleaned(d, now), now).issued[n].certs == CleanedUp(certs, now);
  }

  lemma CleanUpOfBundlesIsBusy(o: Options, d: ChainData, prior: Time, now: Time)
    requires Workable(o) && Current(o, d, prior) && HasBundle(d)
    requires FindCleanUpDeadlineForCACerts(d) <= now < FindRotationDeadlineForCA(o, d)
    ensures CertsCleaned(CACleaned(d, now), now) != d
  {
    hide CACleaned, CertsCleaned, FindRotationDeadlineForCA, IssuedBy, Sorted, CoherentIssue, Workable;
    CurrentCADeadline(o, d, prior);
    var n :| n in d.issued && |d.issued[n].caCerts| > 0;
    var b := SomeOf(d.issued[n].caCerts.Keys);
    assert d.issued[n].caCerts[b][0].NotAfter() in CAExpirations(d);
    var m, k, j :| m in d.issued && k in d.issued[m].caCerts && 0 <= j < |d.issued[m].caCerts[k]|
                   && FindCleanUpDeadlineForCACerts(d) == d.issued[m].caCerts[k][j].NotAfter();
    ExpiredLeavesBundle(d, m, k, j, now);
  }

  lemma CleanUpOfCertsIsBusy(o: Options, d: ChainData, prior: Time, now: Time)
    requires Workable(o) && Current(o, d, prior) && HasBundle(d)
    requires FindCleanUpDeadlineForCerts(d) <= now < FindRotationDeadlineForCerts(o, d)
    ensures CertsCleaned(CACleaned(d, now), now) != d
  {
    hide CACleaned, CertsCleaned, FindRotationDeadlineForCerts, IssuedBy, Sorted, CoherentIssue, Workable;
    var n :| n in d.issued && |d.issued[n].caCerts| > 0;
    assert d.issued[n].certs[0].NotAfter() in CertExpirations(d);
    var m, j :| m in d.issued && 0 <= j < |d.issued[m].certs|
                && FindCleanUpDeadlineForCerts(d) == d.issued[m].certs[j].NotAfter();
    CurrentCertDeadline(o, d, m, prior);
    ExpiredLeavesCerts(d, m, j, now);
  }

  lemma RotationIsBusy(o: Options, d: ChainData, draw: Draw, now: Time)
    requires HasBundle(d) && NewKeys(d, draw, ActionAt(o, d, now)) && d.ca.keyPair.Some?
    requires ActionAt(o, d, now) != Keep
    ensures CertsCleaned(CACleaned(Rotated(o, d, draw, now), now), now) != d
  {
    hide FindRotationDeadlineForCA, FindRotationDeadlineForCerts, FindCleanUpDeadlineForCACerts, FindCleanUpDeadlineForCerts, Verifies;
    var n :| n in d.issued && |d.issued[n].caCerts| > 0;
    var r := Rotated(o, d, draw, now);
    var u := CertsCleaned(CACleaned(r, now), now);
    assert u.ca == r.ca && u.issued[n].key == r.issued[n].key;
    if ActionAt(o, d, now) == RotateAll {
      assert r.ca.keyPair.value.key == draw.ca;
    } else {
      assert r.issued[n].key == Some(LeafKey(draw, n));
    }
  }

  /** From the next deadline on an update always has something to do. */
  lemma BusyFromDeadline(o: Options, d: ChainData, draw: Draw, prior: Time, now: Time)
    requires Workable(o) && Inv(o, d, prior) && HasBundle(d) && NewKeys(d, draw, ActionAt(o, d, now))
    requires prior <= now && NextDeadline(o, d) <= now
    ensures Updated(o, d, draw, now) != d
  {
    hide FindRotationDeadlineForCA, FindRotationDeadlineForCerts, FindCleanUpDeadlineForCACerts, FindCleanUpDeadlineForCerts,
      Verifies, CurrentIssue, BundlesUnexpired, CertsUnexpired, Workable, HasBundle, NewKeys, RotatedAll, RotatedCerts, CACleaned,
      CertsCleaned, DecodedCA;
    if ActionAt(o, d, now) != Keep {
      RotationIsBusy(o, d, draw, now);
    } else if FindCleanUpDeadlineForCACerts(d) <= now {
      CleanUpOfBundlesIsBusy(o, d, prior, now);
    } else {
      CleanUpOfCertsIsBusy(o, d, prior, now);
    }
  }

  /**
   * The returned time is exact. The data an update leaves behind, whatever it
   * started from, is changed by a later update if and only if that one comes at
   * the returned time or later; and until then the same time is returned again.
   */
  lemma PredictionIsExact(o: Options, d: ChainData, draw: Draw, prior: Time, now: Time)
    requires Workable(o) && Inv(o, d, prior) && HasBundle(d) && NewKeys(d, draw, ActionAt(o, d, now)) && prior <= now
    ensures Step(o, d, draw, now) == d <==> now < NextDeadline(o, d)
    ensures now < NextDeadline(o, d) ==> StepAt(o, d, draw, now) == NextDeadline(o, d)
  {
    CoherentIssues(d);
    if now < NextDeadline(o, d) {
      QuietUntilDeadline(o, d, draw, prior, now);
    } else {
      BusyFromDeadline(o, d, draw, prior, now);
    }
  }
}
