/** What one update does to arbitrary data: it repairs it and makes progress. */
module ChainRepair {
  import opened Common
  import opened Triple
  import opened ChainOptions
  import opened ChainModel
  import opened ChainFacts
  import opened ChainInvariant
  import opened ChainPrediction
  import opened ChainVerdicts
  import FloatDuration

  // ---- Self-healing ----

  lemma RotatedAllBundles(o: Options, d: ChainData, draw: Draw, now: Time, n: string, b: string)
    requires n in d.issued && b in d.issued[n].caCerts
    ensures var r := RotatedAll(o, d, draw, now);
            n in r.issued && r.issued[n].caCerts.Keys == d.issued[n].caCerts.Keys
            && CACert(r).Some? && r.issued[n].caCerts[b] == d.issued[n].caCerts[b] + [CACert(r).value]
            && CACert(r).value == NewCA(d.ca.name, draw.ca, o.caRotateInterval, now).cert
  {
  }

  lemma CleanUpFiltersBundles(d: ChainData, now: Time, n: string, b: string)
    requires LastsUnexpired(d, now) && n in d.issued && b in d.issued[n].caCerts
    ensures var u := CertsCleaned(CACleaned(d, now), now);
            n in u.issued && b in u.issued[n].caCerts
            && u.issued[n].caCerts[b] == Unexpired(d.issued[n].caCerts[b], now)
            && u.ca == d.ca
  {
    CACleanedFilters(d, now);
  }

  lemma HealedBundle(o: Options, d: ChainData, draw: Draw, now: Time, n: string, b: string)
    requires Workable(o) && Coherent(d) && AllHosted(d) && ActionAt(o, d, now) == RotateAll
    requires n in d.issued && b in d.issued[n].caCerts
    ensures var u := Updated(o, d, draw, now);
            n in u.issued && b in u.issued[n].caCerts && CACert(u).Some?
            && u.issued[n].caCerts[b] == Unexpired(d.issued[n].caCerts[b] + [CACert(u).value], now)
  {
    hide FindRotationDeadlineForCA, FindRotationDeadlineForCerts, Verifies;
    var r := RotatedAll(o, d, draw, now);
    RotatedAllBundles(o, d, draw, now, n, b);
    RotatedAllIsCurrent(o, d, draw, now);
    InvLastsUnexpired(o, r, now);
    CleanUpFiltersBundles(r, now, n, b);
  }

  /**
   * Data that pass verification, and in which every bundle keeps, in order, each
   * unexpired certificate that could be read from it, followed by the new CA
   * certificate.
   */
  ghost predicate Healed(o: Options, stored: ChainData, healed: ChainData, now: Time) {
    && Verifies(Decoded(healed), now)
    && Inv(o, healed, now)
    && CACert(healed).Some?
    && forall n <- stored.issued, b <- stored.issued[n].caCertPEM ::
         n in healed.issued && b in healed.issued[n].caCertPEM
         && CertsIn(healed.issued[n].caCertPEM[b])
            == Unexpired(CertsIn(stored.issued[n].caCertPEM[b]) + [CACert(healed).value], now)
  }

  lemma FullRotationHeals(o: Options, stored: ChainData, draw: Draw, now: Time)
    requires Workable(o) && AllHosted(stored)
    requires !Verifies(Decoded(stored), now)
    ensures Healed(o, stored, Step(o, stored, draw, now), now)
  {
    hide FindRotationDeadlineForCA, FindRotationDeadlineForCerts, Verifies;
    var d := Decoded(stored);
    var healed := Updated(o, d, draw, now);
    DecodedIsCoherent(stored);
    InvEstablished(o, d, draw, now);
    InvVerifies(o, healed, now);
    CoherentIssues(healed);
    forall n <- stored.issued, b <- stored.issued[n].caCertPEM
      ensures n in healed.issued && b in healed.issued[n].caCertPEM
      ensures CertsIn(healed.issued[n].caCertPEM[b])
              == Unexpired(CertsIn(stored.issued[n].caCertPEM[b]) + [CACert(healed).value], now)
    {
      HealedBundle(o, d, draw, now, n, b);
      assert CoherentIssue(healed.issued[n]);
      assert healed.issued[n].caCerts[b] == DecodedIssue(healed.issued[n]).caCerts[b];
    }
  }

  /**
   * Self-healing: whatever the stored PEM data hold, if they fail verification
   * at now then an update at now, in whatever order it goes, leaves healed data,
   * unless it panics over a certificate without host names,
   */
  lemma SelfHealing(o: Options, stored: ChainData, order: seq<Visit>, draw: Draw, now: Time)
    requires Workable(o) && AllHosted(stored) && AllNamed(stored) && VisitsAll(Decoded(stored), order)
    requires !Verifies(Decoded(stored), now)
    ensures var u := UpdateInOrder(o, Decoded(stored), order, draw, now);
            && (u.Panicked? ==> MayPanic(o, Decoded(stored), now))
            && (!u.Panicked? ==> u.Done? && Healed(o, stored, u.value, now))
  {
    hide FindRotationDeadlineForCA, VisitsAll, VerdictInOrder, Verifies, Healed, Updated, HasNameless, HasRejected, Workable;
    VisitsAllVisitable(Decoded(stored), order);
    TrustedInAnyOrder(Decoded(stored), order, now);
    FullRotationHeals(o, stored, draw, now);
    DecodedIsNamed(stored);
  }

  lemma DecodedIsNamed(d: ChainData)
    requires AllNamed(d)
    ensures AllNamed(Decoded(d))
  {
  }

  /** which it can be spared, by luck or for sure, exactly under these conditions. */
  lemma HealsUnlessPanic(o: Options, stored: ChainData, draw: Draw, now: Time)
    requires AllNamed(stored)
    ensures var d := Decoded(stored);
            && ((exists order :: VisitsAll(d, order) && UpdateInOrder(o, d, order, draw, now).Done?) <==> !MustPanic(o, d, now))
            && ((forall order :: VisitsAll(d, order) ==> UpdateInOrder(o, d, order, draw, now).Done?) <==> !MayPanic(o, d, now))
  {
    hide FindRotationDeadlineForCA, VisitsAll, VerdictInOrder, Verifies, Updated, MayPanic, MustPanic, Decoded, ActionAt;
    var d := Decoded(stored);
    DecodedIsNamed(stored);
    UpdatePanics(o, d, draw, now);
    forall order | VisitsAll(d, order)
      ensures UpdateInOrder(o, d, order, draw, now).Done? <==> !UpdateInOrder(o, d, order, draw, now).Panicked?
    {
    }
  }

  // ---- Progress ----

  /** The last certificates of all lists are within float64 reach. */
  predicate MeasurableLists(o: Options, d: ChainData) {
    forall n <- d.issued ::
      && (d.issued[n].certs != [] ==> Measurable(Last(d.issued[n].certs), o.certOverlapInterval))
      && forall b <- d.issued[n].caCerts ::
           d.issued[n].caCerts[b] != [] ==> Measurable(Last(d.issued[n].caCerts[b]), o.caOverlapInterval)
  }

  /** When a CA issued now falls due, */
  function CADueAt(o: Options, now: Time): Time {
    Seconds(now) * SECOND + FloatDuration.Subtract((Seconds(now + o.caRotateInterval) - Seconds(now)) * SECOND, o.caOverlapInterval)
  }

  /** and when a certificate does that is issued now under a CA whose validity began at start. */
  function LeafDueAt(o: Options, start: int, now: Time): Time {
    start * SECOND + FloatDuration.Subtract((Seconds(now + o.certRotateInterval) - start) * SECOND, o.certOverlapInterval)
  }

  lemma FreshDeadlines(o: Options, ca: KeyPair, name: string, hostnames: seq<string>, key: KeyId, now: Time)
    ensures NextRotationDeadline(SignedKeyPair(ca, name, hostnames, key, o.certRotateInterval, now).cert, o.certOverlapInterval)
            == LeafDueAt(o, ca.cert.notBeforeSeconds, now)
    ensures NextRotationDeadline(NewCA(name, key, o.caRotateInterval, now).cert, o.caOverlapInterval) == CADueAt(o, now)
    ensures Workable(o) ==> now < SignedKeyPair(ca, name, hostnames, key, o.certRotateInterval, now).cert.NotAfter()
  {
    hide FloatDuration.Subtract;
    var leaf := SignedKeyPair(ca, name, hostnames, key, o.certRotateInterval, now).cert;
    var root := NewCA(name, key, o.caRotateInterval, now).cert;
    assert leaf.NotAfter() - leaf.NotBefore() == (Seconds(now + o.certRotateInterval) - ca.cert.notBeforeSeconds) * SECOND;
    assert root.NotAfter() - root.NotBefore() == (Seconds(now + o.caRotateInterval) - Seconds(now)) * SECOND;
  }

  /** What an update issues now falls due later than now. */
  ghost predicate FreshAhead(o: Options, d: ChainData, now: Time) {
    match ActionAt(o, d, now)
    case RotateAll => now < CADueAt(o, now) && now < LeafDueAt(o, Seconds(now), now)
    case RotateCerts => CACert(d).Some? && now < LeafDueAt(o, CACert(d).value.notBeforeSeconds, now)
    case Keep => true
  }

  /** After the rotations both rotation deadlines lie ahead and no list ends with an expired certificate. */
  ghost predicate Ahead(o: Options, d: ChainData, now: Time) {
    && LastsUnexpired(d, now)
    && now < FindRotationDeadlineForCA(o, d)
    && now < FindRotationDeadlineForCerts(o, d)
  }

  lemma RotatedAllCerts(o: Options, d: ChainData, draw: Draw, now: Time, n: string)
    requires n in d.issued
    ensures var ca := NewCA(d.ca.name, draw.ca, o.caRotateInterval, now);
            RotatedAll(o, d, draw, now).issued[n].certs
            == [SignedKeyPair(ca, d.issued[n].name, d.issued[n].hostnames, LeafKey(draw, n), o.certRotateInterval, now).cert]
  {
  }

  lemma RotatedAllDeadlines(o: Options, d: ChainData, draw: Draw, now: Time)
    requires Workable(o) && HasBundle(d)
    ensures var r := RotatedAll(o, d, draw, now);
            && LastsUnexpired(r, now)
            && FindRotationDeadlineForCA(o, r) == CADueAt(o, now)
            && FindRotationDeadlineForCerts(o, r) == LeafDueAt(o, Seconds(now), now)
  {
    hide FindRotationDeadlineForCA, FindRotationDeadlineForCerts, NextRotationDeadline, RotatedAll, HasBundle, CADueAt, LeafDueAt;
    var r := RotatedAll(o, d, draw, now);
    var ca := NewCA(d.ca.name, draw.ca, o.caRotateInterval, now);
    ShapeRotatedAll(o, d, draw, now);
    SameShapeFacts(d, r);
    FreshPair(o, d.ca.name, draw.ca, now);
    FreshDeadlines(o, ca, d.ca.name, [], draw.ca, now);
    forall n <- r.issued, b <- r.issued[n].caCerts
      ensures r.issued[n].caCerts[b] != [] && Last(r.issued[n].caCerts[b]) == ca.cert
    {
      assert SameIssue(d.issued[n], r.issued[n]);
      RotatedAllBundles(o, d, draw, now, n, b);
    }
    CommonCADeadline(o, r, ca.cert);
    forall n <- r.issued
      ensures r.issued[n].certs != [] && now < Last(r.issued[n].certs).NotAfter()
      ensures NextRotationDeadline(Last(r.issued[n].certs), o.certOverlapInterval) == LeafDueAt(o, Seconds(now), now)
    {
      RotatedAllCerts(o, d, draw, now, n);
      FreshDeadlines(o, ca, d.issued[n].name, d.issued[n].hostnames, LeafKey(draw, n), now);
    }
    BundleHasIssue(r);
    CertDeadline(o, r);
  }

  lemma BundlesAhead(o: Options, d: ChainData, now: Time)
    requires Workable(o) && MeasurableLists(o, d) && 0 <= now < FindRotationDeadlineForCA(o, d)
    ensures forall n <- d.issued, b <- d.issued[n].caCerts ::
              d.issued[n].caCerts[b] != [] && now < Last(d.issued[n].caCerts[b]).NotAfter()
  {
    CADeadline(o, d);
    forall n <- d.issued, b <- d.issued[n].caCerts
      ensures d.issued[n].caCerts[b] != [] && now < Last(d.issued[n].caCerts[b]).NotAfter()
    {
      DeadlineNear(Last(d.issued[n].caCerts[b]), o.caOverlapInterval);
    }
  }

  lemma CertsAhead(o: Options, d: ChainData, now: Time)
    requires Workable(o) && MeasurableLists(o, d) && 0 <= now < FindRotationDeadlineForCerts(o, d)
    ensures forall n <- d.issued :: d.issued[n].certs != [] && now < Last(d.issued[n].certs).NotAfter()
  {
    CertDeadlineNotEmpty(o, d, now);
    CertDeadline(o, d);
    forall n <- d.issued ensures now < Last(d.issued[n].certs).NotAfter() {
      DeadlineNear(Last(d.issued[n].certs), o.certOverlapInterval);
    }
  }

  lemma CertDeadlineNotEmpty(o: Options, d: ChainData, now: Time)
    requires 0 <= now < FindRotationDeadlineForCerts(o, d)
    ensures forall n <- d.issued :: d.issued[n].certs != []
  {
  }

  lemma VerifiedHasCA(d: ChainData, now: Time)
    requires HasBundle(d) && !HasEmptyBundle(d) && Coherent(d) && Verifies(d, now)
    ensures CACert(d).Some?
  {
    var n :| n in d.issued && |d.issued[n].caCerts| > 0;
    var b := SomeOf(d.issued[n].caCerts.Keys);
    CoherentIssues(d);
    assert b in d.issued[n].caCertPEM;
    assert LastCert(Bundle(d.issued[n], b)) == CACert(d);
  }

  lemma BundleHasIssue(d: ChainData)
    requires HasBundle(d)
    ensures d.issued.Keys != {}
  {
  }

  lemma RotatedCertsDeadlines(o: Options, d: ChainData, draw: Draw, now: Time)
    requires Workable(o) && HasBundle(d) && CACert(d).Some? && MeasurableLists(o, d)
    requires 0 <= now < FindRotationDeadlineForCA(o, d)
    ensures var r := RotatedCerts(o, d, d.ca.keyPair.value, draw, now, Append);
            && LastsUnexpired(r, now)
            && FindRotationDeadlineForCA(o, r) == FindRotationDeadlineForCA(o, d)
            && FindRotationDeadlineForCerts(o, r) == LeafDueAt(o, CACert(d).value.notBeforeSeconds, now)
  {
    hide FindRotationDeadlineForCA, FindRotationDeadlineForCerts, NextRotationDeadline, MeasurableLists, HasBundle, Workable,
      LeafDueAt, CADueAt;
    var ca := d.ca.keyPair.value;
    var r := RotatedCerts(o, d, ca, draw, now, Append);
    BundlesAhead(o, d, now);
    BundlesDecide(o, d, r);
    forall n <- r.issued
      ensures NextRotationDeadline(Last(r.issued[n].certs), o.certOverlapInterval) == LeafDueAt(o, ca.cert.notBeforeSeconds, now)
      ensures now < Last(r.issued[n].certs).NotAfter()
    {
      var i := d.issued[n];
      FreshDeadlines(o, ca, i.name, i.hostnames, LeafKey(draw, n), now);
    }
    BundleHasIssue(d);
    CertDeadline(o, r);
  }

  /** After the rotations everything is ahead exactly when what was issued is. */
  lemma RotatedAhead(o: Options, d: ChainData, draw: Draw, now: Time)
    requires Workable(o) && HasBundle(d) && Coherent(d) && MeasurableLists(o, d) && 0 <= now
    ensures LastsUnexpired(Rotated(o, d, draw, now), now)
    ensures Ahead(o, Rotated(o, d, draw, now), now) <==> FreshAhead(o, d, now)
  {
    hide FindRotationDeadlineForCA, FindRotationDeadlineForCerts, Verifies, LastsUnexpired, MeasurableLists, HasBundle, Coherent,
      RotatedAll, RotatedCerts, Workable, CADueAt, LeafDueAt;
    if ActionAt(o, d, now) == RotateAll {
      RotatedAllDeadlines(o, d, draw, now);
    } else {
      CADeadline(o, d);
      BundlesAhead(o, d, now);
      if ActionAt(o, d, now) == RotateCerts {
        VerifiedHasCA(d, now);
        RotatedCertsDeadlines(o, d, draw, now);
      } else {
        CertsAhead(o, d, now);
        LastsAhead(d, now);
      }
    }
  }

  lemma LastsAhead(d: ChainData, now: Time)
    requires forall n <- d.issued, b <- d.issued[n].caCerts ::
               d.issued[n].caCerts[b] != [] && now < Last(d.issued[n].caCerts[b]).NotAfter()
    requires forall n <- d.issued :: d.issued[n].certs != [] && now < Last(d.issued[n].certs).NotAfter()
    ensures LastsUnexpired(d, now)
  {
  }

  lemma CleanUpDeadlinesAhead(d: ChainData, now: Time)
    requires HasBundle(d) && BundlesUnexpired(d, now) && CertsUnexpired(d, now) && LastsUnexpired(d, now)
    ensures now < FindCleanUpDeadlineForCACerts(d) && now < FindCleanUpDeadlineForCerts(d)
  {
    var n :| n in d.issued && |d.issued[n].caCerts| > 0;
    var b := SomeOf(d.issued[n].caCerts.Keys);
    assert d.issued[n].caCerts[b][0].NotAfter() in CAExpirations(d);
    assert d.issued[n].certs[0].NotAfter() in CertExpirations(d);
  }

  lemma NothingExpiredAfterCleanUp(d: ChainData, now: Time)
    requires LastsUnexpired(d, now)
    ensures var u := CertsCleaned(CACleaned(d, now), now);
            BundlesUnexpired(u, now) && CertsUnexpired(u, now) && LastsUnexpired(u, now)
  {
    var c := CACleaned(d, now);
    var u := CertsCleaned(c, now);
    CACleanedFilters(d, now);
    CertsCleanedFilters(c, now);
    forall n <- u.issued, b <- u.issued[n].caCerts, cert <- u.issued[n].caCerts[b] ensures cert.NotAfter() > now {
      UnexpiredMember(d.issued[n].caCerts[b], now, cert);
    }
    forall n <- u.issued, cert <- u.issued[n].certs ensures cert.NotAfter() > now {
      UnexpiredMember(c.issued[n].certs, now, cert);
    }
  }

  lemma DeadlinesAfterCleanUpAhead(o: Options, d: ChainData, now: Time)
    requires LastsUnexpired(d, now)
    ensures LastsUnexpired(CertsCleaned(CACleaned(d, now), now), now)
    ensures Ahead(o, CertsCleaned(CACleaned(d, now), now), now) <==> Ahead(o, d, now)
  {
    hide FindRotationDeadlineForCA, FindRotationDeadlineForCerts, FindCleanUpDeadlineForCACerts, FindCleanUpDeadlineForCerts;
    CACleanedFilters(d, now);
    DeadlinesAfterCACleanUp(o, d, now);
    CertsCleanedFilters(CACleaned(d, now), now);
    DeadlinesAfterCertCleanUp(o, CACleaned(d, now), now);
  }

  lemma NoBundleNoProgress(o: Options, d: ChainData, draw: Draw, now: Time)
    requires !HasBundle(d) && 0 <= now
    ensures ActionAt(o, d, now) == RotateAll
    ensures UpdateAt(o, d, draw, now) <= 0
  {
    hide FindRotationDeadlineForCA, FindRotationDeadlineForCerts, Verifies, FindCleanUpDeadlineForCACerts,
      FindCleanUpDeadlineForCerts;
    CADeadline(o, d);
    ShapeRotated(o, d, draw, now);
    SameShapeFacts(d, Rotated(o, d, draw, now));
    CADeadline(o, Rotated(o, d, draw, now));
  }

  lemma BundleProgress(o: Options, d: ChainData, draw: Draw, now: Time)
    requires Workable(o) && Coherent(d) && MeasurableLists(o, d) && 0 <= now && HasBundle(d)
    ensures now < UpdateAt(o, d, draw, now) <==> FreshAhead(o, d, now)
  {
    hide FindRotationDeadlineForCA, FindRotationDeadlineForCerts, Verifies, FindCleanUpDeadlineForCACerts,
      FindCleanUpDeadlineForCerts, Rotated, UpdateAt, CACleaned, CertsCleaned, LastsUnexpired, MeasurableLists, Workable,
      HasBundle, SameShape, BundlesUnexpired, CertsUnexpired, Coherent, FreshAhead;
    var r := Rotated(o, d, draw, now);
    RotatedAhead(o, d, draw, now);
    ReturnedTimeIsNextDeadline(o, d, draw, now);
    DeadlinesAfterCleanUpAhead(o, r, now);
    NothingExpiredAfterCleanUp(r, now);
    ShapeKept(o, d, draw, now);
    SameShapeFacts(d, Updated(o, d, draw, now));
    CleanUpDeadlinesAhead(Updated(o, d, draw, now), now);
  }

  /**
   * Progress: from any data the returned time lies strictly ahead if and only if
   * there is a bundle and what the update issues, if anything, falls due later
   * than now. Without a bundle an update always rotates everything and asks to be
   * called again at once.
   */
  lemma Progress(o: Options, d: ChainData, draw: Draw, now: Time)
    requires Workable(o) && Coherent(d) && MeasurableLists(o, d) && 0 <= now
    ensures now < UpdateAt(o, d, draw, now) <==> HasBundle(d) && FreshAhead(o, d, now)
    ensures !HasBundle(d) ==> ActionAt(o, d, now) == RotateAll
  {
    hide *;
    if HasBundle(d) {
      BundleProgress(o, d, draw, now);
    } else {
      NoBundleNoProgress(o, d, draw, now);
    }
  }

  // ---- What an update makes of a bundle ----

  /** The CA certificate that an update adds to every bundle, if it does. */
  ghost function AddedCAs(o: Options, d: ChainData, draw: Draw, now: Time): seq<Certificate> {
    if ActionAt(o, d, now) == RotateAll then [NewCA(d.ca.name, draw.ca, o.caRotateInterval, now).cert] else []
  }

  lemma UpdatedBundle(o: Options, d: ChainData, draw: Draw, now: Time, n: string, b: string)
    requires Workable(o) && Coherent(d) && MeasurableLists(o, d) && 0 <= now
    requires n in d.issued && b in d.issued[n].caCerts
    ensures var u := Updated(o, d, draw, now);
            && n in u.issued && b in u.issued[n].caCerts
            && u.issued[n].caCerts[b] == Unexpired(d.issued[n].caCerts[b] + AddedCAs(o, d, draw, now), now)
  {
    hide ActionAt, LastsUnexpired, MeasurableLists, Workable, Coherent, RotatedAll, CACleaned, CertsCleaned, Unexpired, NewCA;
    assert |d.issued[n].caCerts| > 0;
    RotatedAhead(o, d, draw, now);
    RotatedAllBundles(o, d, draw, now, n, b);
    CleanUpFiltersBundles(Rotated(o, d, draw, now), now, n, b);
    assert d.issued[n].caCerts[b] + [] == d.issued[n].caCerts[b];
  }
}
