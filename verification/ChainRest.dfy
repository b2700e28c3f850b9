/** What any update leaves behind, and how long that rests. */
module ChainRest {
  import opened Common
  import opened Triple
  import opened ChainOptions
  import opened ChainModel
  import opened ChainFacts
  import opened ChainInvariant
  import opened ChainPrediction
  import opened ChainRepair
  import opened ChainVerdicts

  // ---- Coherence and the returned time, from any data ----

  lemma RotatedAllLasts(o: Options, d: ChainData, draw: Draw, now: Time)
    requires Workable(o)
    ensures LastsUnexpired(RotatedAll(o, d, draw, now), now)
  {
    hide RotatedAll;
    var r := RotatedAll(o, d, draw, now);
    ShapeRotatedAll(o, d, draw, now);
    FreshPair(o, d.ca.name, draw.ca, now);
    forall n <- r.issued
      ensures r.issued[n].certs != [] && Last(r.issued[n].certs).NotAfter() > now
      ensures forall b <- r.issued[n].caCerts :: r.issued[n].caCerts[b] != [] && Last(r.issued[n].caCerts[b]).NotAfter() > now
    {
      RotatedAllCerts(o, d, draw, now, n);
      assert SameIssue(d.issued[n], r.issued[n]);
      forall b <- r.issued[n].caCerts
        ensures r.issued[n].caCerts[b] != [] && Last(r.issued[n].caCerts[b]).NotAfter() > now
      {
        RotatedAllBundles(o, d, draw, now, n, b);
      }
    }
  }

  /** After the rotations of any update no list ends with an expired certificate. */
  lemma RotatedLasts(o: Options, d: ChainData, draw: Draw, now: Time)
    requires Workable(o) && Coherent(d) && MeasurableLists(o, d) && 0 <= now
    ensures LastsUnexpired(Rotated(o, d, draw, now), now)
  {
    hide FindRotationDeadlineForCA, FindRotationDeadlineForCerts, Verifies, RotatedAll, Coherent, MeasurableLists;
    if ActionAt(o, d, now) == RotateAll {
      RotatedAllLasts(o, d, draw, now);
    } else {
      BundlesAhead(o, d, now);
      if ActionAt(o, d, now) == RotateCerts {
        CADeadline(o, d);
        VerifiedHasCA(d, now);
      } else {
        CertsAhead(o, d, now);
      }
    }
  }

  lemma CoherentRotatedAll(o: Options, d: ChainData, draw: Draw, now: Time)
    requires Coherent(d)
    ensures Coherent(RotatedAll(o, d, draw, now))
  {
    hide WithCACert, WithKeyReset, WithKeyAppended, CoherentIssue;
    CoherentIssues(d);
    var ca := NewCA(d.ca.name, draw.ca, o.caRotateInterval, now);
    CoherentCA(d.ca, ca);
    forall n <- d.issued ensures CoherentIssue(RotatedAll(o, d, draw, now).issued[n]) {
      var i := WithCACert(d.issued[n], ca.cert);
      CoherentWithCACert(d.issued[n], ca.cert);
      CoherentKeys(i, SignedKeyPair(ca, i.name, i.hostnames, LeafKey(draw, n), o.certRotateInterval, now));
    }
    CoherentIssues(RotatedAll(o, d, draw, now));
  }

  lemma CoherentRotatedCerts(o: Options, d: ChainData, ca: KeyPair, draw: Draw, now: Time)
    requires Coherent(d)
    ensures Coherent(RotatedCerts(o, d, ca, draw, now, Append))
  {
    hide WithKeyReset, WithKeyAppended, CoherentIssue;
    CoherentIssues(d);
    forall n <- d.issued ensures CoherentIssue(RotatedCerts(o, d, ca, draw, now, Append).issued[n]) {
      var i := d.issued[n];
      CoherentKeys(i, SignedKeyPair(ca, i.name, i.hostnames, LeafKey(draw, n), o.certRotateInterval, now));
    }
    CoherentIssues(RotatedCerts(o, d, ca, draw, now, Append));
  }

  lemma CoherentCleaned(d: ChainData, now: Time)
    requires Coherent(d) && LastsUnexpired(d, now)
    ensures Coherent(CACleaned(d, now)) && Coherent(CertsCleaned(d, now))
  {
    hide WithBundlesCleanedUp, CleanedUp, FindCleanUpDeadlineForCACerts, FindCleanUpDeadlineForCerts;
    CoherentIssues(d);
    forall n <- d.issued
      ensures CoherentIssue(WithBundlesCleanedUp(d.issued[n], now))
      ensures CoherentIssue(WithCerts(d.issued[n], CleanedUp(d.issued[n].certs, now)))
    {
      var i := d.issued[n];
      CoherentBundlesCleanedUp(i, now);
      CleanedUpKeepsLast(i.certs, now);
      CoherentWithCerts(i, CleanedUp(i.certs, now));
    }
    CoherentIssues(CACleaned(d, now));
    CoherentIssues(CertsCleaned(d, now));
  }

  lemma CoherentRotated(o: Options, d: ChainData, draw: Draw, now: Time)
    requires Coherent(d)
    ensures Coherent(Rotated(o, d, draw, now))
  {
    hide Coherent, ActionAt, RotatedAll, RotatedCerts;
    CoherentRotatedAll(o, d, draw, now);
    if d.ca.keyPair.Some? {
      CoherentRotatedCerts(o, d, d.ca.keyPair.value, draw, now);
    }
  }

  /**
   * PEM and decoded data stay coherent through every update, whichever branch
   * it takes, although cleaning up alone would break that for a list all of
   * which expired; and the returned time is the earliest deadline of the result.
   */
  lemma UpdateIsCoherent(o: Options, d: ChainData, draw: Draw, now: Time)
    requires Workable(o) && Coherent(d) && MeasurableLists(o, d) && 0 <= now
    ensures Coherent(Updated(o, d, draw, now)) && LastsUnexpired(Updated(o, d, draw, now), now)
    ensures UpdateAt(o, d, draw, now) == NextDeadline(o, Updated(o, d, draw, now))
  {
    hide Coherent, Rotated, MeasurableLists, CACleaned, CertsCleaned, LastsUnexpired, NextDeadline, UpdateAt;
    var r := Rotated(o, d, draw, now);
    RotatedLasts(o, d, draw, now);
    CoherentRotated(o, d, draw, now);
    CoherentCleaned(r, now);
    CACleanedFilters(r, now);
    CoherentCleaned(CACleaned(r, now), now);
    ReturnedTimeIsNextDeadline(o, d, draw, now);
  }

  // ---- Data at rest ----

  /** Before the earliest deadline of any data, an update leaves them alone if they verify, */
  lemma VerifiedRests(o: Options, d: ChainData, draw: Draw, now: Time)
    requires 0 <= now < NextDeadline(o, d) && Verifies(d, now)
    ensures ActionAt(o, d, now) == Keep && Updated(o, d, draw, now) == d
    ensures UpdateAt(o, d, draw, now) == NextDeadline(o, d)
  {
    hide FindRotationDeadlineForCA, FindRotationDeadlineForCerts, FindCleanUpDeadlineForCACerts, FindCleanUpDeadlineForCerts,
      Verifies;
  }

  /** and only then. */
  lemma RestsWhileVerified(o: Options, d: ChainData, draw: Draw, now: Time)
    requires 0 <= now < NextDeadline(o, d) && NewKeys(d, draw, ActionAt(o, d, now))
    ensures Updated(o, d, draw, now) == d <==> Verifies(d, now)
  {
    hide Updated, UpdateAt, NextDeadline, Verifies;
    if Verifies(d, now) {
      VerifiedRests(o, d, draw, now);
    } else {
      FullRotationChanges(o, d, draw, now);
    }
  }

  lemma FullRotationChanges(o: Options, d: ChainData, draw: Draw, now: Time)
    requires ActionAt(o, d, now) == RotateAll && NewKeys(d, draw, RotateAll)
    ensures Updated(o, d, draw, now) != d
  {
    hide FindRotationDeadlineForCA, FindRotationDeadlineForCerts, FindCleanUpDeadlineForCACerts, FindCleanUpDeadlineForCerts,
      Verifies;
    assert Updated(o, d, draw, now).ca.keyPair.value.key == draw.ca;
  }

  // ---- Whether verified data stay verified ----

  /** The first certificate that an update which keeps the CA leaves to an issue. */
  function FirstLeft(o: Options, d: ChainData, draw: Draw, n: string, now: Time): Certificate
    requires n in d.issued && CACert(d).Some?
  {
    var i := d.issued[n];
    if Unexpired(i.certs, now) != [] then Unexpired(i.certs, now)[0]
    else SignedKeyPair(d.ca.keyPair.value, i.name, i.hostnames, LeafKey(draw, n), o.certRotateInterval, now).cert
  }

  /**
   * A root that such an update leaves in a bundle: once some CA certificate has
   * expired, the unexpired ones that could be read, and before that all there are.
   */
  ghost predicate RootLeft(d: ChainData, n: string, b: string, root: Certificate, now: Time)
    requires n in d.issued && b in d.issued[n].caCertPEM
  {
    if FindCleanUpDeadlineForCACerts(d) <= now then root in Bundle(d.issued[n], b) && now < root.NotAfter()
    else InPool(root, d.issued[n].caCertPEM[b])
  }

  ghost predicate StillTrusted(o: Options, d: ChainData, draw: Draw, n: string, b: string, now: Time)
    requires n in d.issued && b in d.issued[n].caCertPEM && CACert(d).Some?
  {
    var leaf := FirstLeft(o, d, draw, n, now);
    leaf.dnsNames != [] && exists root :: RootLeft(d, n, b, root, now) && Vouches(root, leaf, now)
  }

  lemma CoherentTLS(i: CertificateIssue, bundle: PEM, now: Time)
    requires CoherentIssue(i) && i.certs != []
    ensures TLSVerifies(i.certPEM, i.keyPEM, bundle, now) <==>
              i.certs[0].dnsNames != [] && VerifiesAgainst(i.certs[0], bundle, now)
  {
    hide VerifiesAgainst;
    assert DecodedKeyPair(i.keyPEM, i.certPEM) == (i.key, i.certs);
  }

  /** What is left of an issue: its certificates, */
  lemma CertsLeft(o: Options, d: ChainData, draw: Draw, n: string, now: Time)
    requires Coherent(d) && LastsUnexpired(Rotated(o, d, draw, now), now)
    requires ActionAt(o, d, now) != RotateAll && CACert(d).Some? && n in d.issued
    ensures var u := Updated(o, d, draw, now);
            n in u.issued && u.issued[n].certs != [] && u.issued[n].certs[0] == FirstLeft(o, d, draw, n, now)
  {
    hide FindRotationDeadlineForCA, FindRotationDeadlineForCerts, Verifies, Coherent, FindCleanUpDeadlineForCACerts,
      FindCleanUpDeadlineForCerts, Unexpired;
    var r := Rotated(o, d, draw, now);
    CACleanedFilters(r, now);
    CertsCleanedFilters(CACleaned(r, now), now);
    var i := d.issued[n];
    var leaf := SignedKeyPair(d.ca.keyPair.value, i.name, i.hostnames, LeafKey(draw, n), o.certRotateInterval, now).cert;
    UnexpiredConcat(i.certs, [leaf], now);
    assert r.issued[n].certs == i.certs || r.issued[n].certs == i.certs + [leaf];
    OneUnexpired(leaf, now);
  }

  lemma OneUnexpired(c: Certificate, now: Time)
    ensures Unexpired([c], now) == if now < c.NotAfter() then [c] else []
  {
    assert [c][1..] == [];
  }

  lemma KeptBundles(o: Options, d: ChainData, draw: Draw, now: Time)
    requires ActionAt(o, d, now) != RotateAll
    ensures var r := Rotated(o, d, draw, now);
            && r.ca == d.ca && r.issued.Keys == d.issued.Keys
            && forall n <- d.issued :: r.issued[n].caCerts == d.issued[n].caCerts && r.issued[n].caCertPEM == d.issued[n].caCertPEM
  {
    hide ActionAt;
  }

  lemma CertCleanUpKeepsBundles(d: ChainData, now: Time)
    ensures var u := CertsCleaned(d, now);
            && u.ca == d.ca && u.issued.Keys == d.issued.Keys
            && forall n <- d.issued :: u.issued[n].caCerts == d.issued[n].caCerts && u.issued[n].caCertPEM == d.issued[n].caCertPEM
  {
    hide FindCleanUpDeadlineForCerts;
  }

  /** the end of its bundles, and the roots in their pools. */
  lemma BundleLeft(o: Options, d: ChainData, draw: Draw, n: string, b: string, now: Time)
    requires Coherent(d) && LastsUnexpired(Rotated(o, d, draw, now), now) && ActionAt(o, d, now) != RotateAll
    requires n in d.issued && b in d.issued[n].caCerts && b in d.issued[n].caCertPEM
    ensures var u := Updated(o, d, draw, now);
            && n in u.issued && b in u.issued[n].caCertPEM && CACert(u) == CACert(d)
            && LastCert(Bundle(u.issued[n], b)) == LastCert(Bundle(d.issued[n], b))
            && forall root :: InPool(root, u.issued[n].caCertPEM[b]) <==> RootLeft(d, n, b, root, now)
  {
    hide FindRotationDeadlineForCA, FindRotationDeadlineForCerts, Verifies, Coherent, FindCleanUpDeadlineForCACerts,
      FindCleanUpDeadlineForCerts, Unexpired, InPool, Rotated, EncodedCerts, ActionAt, CertsCleaned;
    var r := Rotated(o, d, draw, now);
    var c := CACleaned(r, now);
    var certs := d.issued[n].caCerts[b];
    KeptBundles(o, d, draw, now);
    BundlesDecide(o, d, r);
    CertCleanUpKeepsBundles(c, now);
    CACleanedFilters(r, now);
    CleanedUpKeepsLast(certs, now);
    UnexpiredLast(certs, now);
    forall root ensures InPool(root, c.issued[n].caCertPEM[b]) <==> RootLeft(d, n, b, root, now) {
      PoolAfterEncode(Unexpired(certs, now), root);
      UnexpiredMember(certs, now, root);
    }
  }

  lemma VerifiedBundle(d: ChainData, n: string, b: string, now: Time)
    requires Verifies(d, now) && n in d.issued && b in d.issued[n].caCertPEM
    ensures LastCert(Bundle(d.issued[n], b)) == CACert(d)
    ensures TLSVerifies(d.issued[n].certPEM, d.issued[n].keyPEM, d.issued[n].caCertPEM[b], now)
  {
    hide TLSVerifies;
  }

  lemma KeepsCA(o: Options, d: ChainData, now: Time)
    requires Coherent(d) && 0 <= now && ActionAt(o, d, now) != RotateAll
    ensures Verifies(d, now) && CACert(d).Some?
  {
    hide FindRotationDeadlineForCA, FindRotationDeadlineForCerts, Verifies, HasBundle, HasEmptyBundle;
    CADeadline(o, d);
    VerifiedHasCA(d, now);
  }

  /**
   * After an update that keeps the CA the data verify at the same time if and
   * only if in every bundle some root that is left vouches for the first
   * certificate that is left.
   */
  lemma StaysVerified(o: Options, d: ChainData, draw: Draw, now: Time)
    requires Workable(o) && Coherent(d) && MeasurableLists(o, d) && 0 <= now && ActionAt(o, d, now) != RotateAll
    ensures CACert(d).Some?
    ensures Verifies(Updated(o, d, draw, now), now) <==>
              forall n <- d.issued, b <- d.issued[n].caCertPEM :: StillTrusted(o, d, draw, n, b, now)
  {
    hide ActionAt, Updated, Coherent, Vouches, RootLeft, InPool, FirstLeft, TLSVerifies, MeasurableLists, Workable, Rotated,
      LastsUnexpired;
    var u := Updated(o, d, draw, now);
    KeepsCA(o, d, now);
    RotatedLasts(o, d, draw, now);
    UpdateIsCoherent(o, d, draw, now);
    forall n <- d.issued, b <- d.issued[n].caCertPEM
      ensures n in u.issued && b in u.issued[n].caCertPEM
      ensures LastCert(Bundle(u.issued[n], b)) == CACert(u)
      ensures TLSVerifies(u.issued[n].certPEM, u.issued[n].keyPEM, u.issued[n].caCertPEM[b], now)
              <==> StillTrusted(o, d, draw, n, b, now)
    {
      VerifiedBundle(d, n, b, now);
      CoherentKeysOf(d, n);
      BundleLeft(o, d, draw, n, b, now);
      CertsLeft(o, d, draw, n, now);
      CoherentIssueOf(u, n);
      CoherentTLS(u.issued[n], u.issued[n].caCertPEM[b], now);
    }
    UpdatedBundleKeys(o, d, draw, now);
  }

  lemma CoherentIssueOf(d: ChainData, n: string)
    requires Coherent(d) && n in d.issued
    ensures CoherentIssue(d.issued[n])
  {
    CoherentIssues(d);
  }

  lemma CoherentKeysOf(d: ChainData, n: string)
    requires Coherent(d) && n in d.issued
    ensures d.issued[n].caCerts.Keys == d.issued[n].caCertPEM.Keys
  {
    CoherentIssueOf(d, n);
    assert DecodedIssue(d.issued[n]).caCerts.Keys == d.issued[n].caCertPEM.Keys;
  }

  lemma UpdatedBundleKeys(o: Options, d: ChainData, draw: Draw, now: Time)
    requires Coherent(d) && Coherent(Updated(o, d, draw, now))
    ensures var u := Updated(o, d, draw, now);
            && u.issued.Keys == d.issued.Keys
            && forall n <- d.issued :: u.issued[n].caCertPEM.Keys == d.issued[n].caCertPEM.Keys
  {
    hide Updated, Coherent;
    var u := Updated(o, d, draw, now);
    ShapeKept(o, d, draw, now);
    forall n <- d.issued ensures u.issued[n].caCertPEM.Keys == d.issued[n].caCertPEM.Keys {
      assert SameIssue(d.issued[n], u.issued[n]);
      CoherentKeysOf(d, n);
      CoherentKeysOf(u, n);
    }
  }

  /** In particular they do if every issue has certificates with an RSA key and nothing has expired. */
  lemma StaysVerifiedBeforeCleanUp(o: Options, d: ChainData, draw: Draw, now: Time)
    requires Workable(o) && Coherent(d) && MeasurableLists(o, d) && 0 <= now && ActionAt(o, d, now) != RotateAll
    requires now < FindCleanUpDeadlineForCACerts(d) && now < FindCleanUpDeadlineForCerts(d)
    requires forall n <- d.issued :: d.issued[n].certs != []
    ensures Verifies(Updated(o, d, draw, now), now)
  {
    hide ActionAt, Updated, Coherent, Vouches, InPool, TLSVerifies, MeasurableLists, Workable, FindCleanUpDeadlineForCACerts,
      FindCleanUpDeadlineForCerts, FirstLeft;
    KeepsCA(o, d, now);
    StaysVerified(o, d, draw, now);
    forall n <- d.issued, b <- d.issued[n].caCertPEM ensures StillTrusted(o, d, draw, n, b, now) {
      VerifiedBundle(d, n, b, now);
      CoherentIssueOf(d, n);
      VerifiedCerts(d.issued[n], d.issued[n].caCertPEM[b], now);
      CertExpiration(d, n, d.issued[n].certs[0]);
      FirstLeftIsFirst(o, d, draw, n, now);
    }
  }

  lemma VerifiedCerts(i: CertificateIssue, bundle: PEM, now: Time)
    requires CoherentIssue(i) && TLSVerifies(i.certPEM, i.keyPEM, bundle, now)
    ensures i.certs != [] ==> i.certs[0].dnsNames != [] && VerifiesAgainst(i.certs[0], bundle, now)
    ensures i.key.Some? <==> i.certs != []
  {
    hide VerifiesAgainst;
    assert DecodedKeyPair(i.keyPEM, i.certPEM) == (i.key, i.certs);
  }

  lemma FirstLeftIsFirst(o: Options, d: ChainData, draw: Draw, n: string, now: Time)
    requires n in d.issued && CACert(d).Some? && d.issued[n].certs != [] && now < d.issued[n].certs[0].NotAfter()
    ensures FirstLeft(o, d, draw, n, now) == d.issued[n].certs[0]
  {
  }
}
