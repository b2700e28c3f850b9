/** Whole runs: any number of updates at non-decreasing times. */
module ChainRuns {
  import opened Common
  import opened Triple
  import opened ChainOptions
  import opened ChainModel
  import opened ChainFacts
  import opened ChainInvariant
  import opened ChainPrediction

  /** One update: when it happens and which keys it draws if it rotates. */
  datatype Tick = Tick(now: Time, draw: Draw)

  /** The data after updating once per tick. */
  ghost function Run(o: Options, start: ChainData, ticks: seq<Tick>): ChainData {
    if ticks == [] then start
    else
      var before := Run(o, start, ticks[..|ticks| - 1]);
      Step(o, before, Last(ticks).draw, Last(ticks).now)
  }

  predicate Ordered(ticks: seq<Tick>) {
    forall i, j :: 0 <= i < j < |ticks| ==> ticks[i].now <= ticks[j].now
  }

  /**
   * Data a run may start from: at least one bundle, host names for every issue,
   * and a first update that rotates everything.
   */
  ghost predicate Starts(o: Options, start: ChainData, now: Time) {
    && HasBundle(Decoded(start))
    && AllHosted(start)
    && ActionAt(o, Decoded(start), now) == RotateAll
  }

  predicate Blank(d: ChainData) {
    d.ca.keyPEM == [] && d.ca.certPEM == []
    && forall n <- d.issued :: d.issued[n].keyPEM == [] && d.issued[n].certPEM == []
                               && forall b <- d.issued[n].caCertPEM :: d.issued[n].caCertPEM[b] == []
  }

  /** Blank data is one such start: its empty bundles make the CA due at once. */
  lemma BlankStarts(o: Options, start: ChainData, now: Time)
    requires Blank(start) && AllHosted(start) && HasBundle(Decoded(start)) && 0 <= now
    ensures Starts(o, start, now)
  {
    var d := Decoded(start);
    var n :| n in d.issued && |d.issued[n].caCerts| > 0;
    var b := SomeOf(d.issued[n].caCerts.Keys);
    assert d.issued[n].caCerts[b] == [];
    CADeadline(o, d);
  }

  lemma OrderedPrefix(ticks: seq<Tick>, k: nat)
    requires Ordered(ticks) && k <= |ticks|
    ensures Ordered(ticks[..k])
  {
  }

  lemma RunStep(o: Options, start: ChainData, ticks: seq<Tick>, k: nat)
    requires k < |ticks|
    ensures Run(o, start, ticks[..k + 1]) == Step(o, Run(o, start, ticks[..k]), ticks[k].draw, ticks[k].now)
  {
    assert ticks[..k + 1][..k] == ticks[..k];
  }

  lemma StepKeepsInv(o: Options, d: ChainData, draw: Draw, prior: Time, now: Time)
    requires Workable(o) && Inv(o, d, prior) && HasBundle(d) && prior <= now
    ensures Step(o, d, draw, now) == Updated(o, d, draw, now)
    ensures Inv(o, Step(o, d, draw, now), now) && HasBundle(Step(o, d, draw, now))
  {
    hide FindRotationDeadlineForCA, FindRotationDeadlineForCerts, Verifies, Updated;
    CoherentIssues(d);
    InvKept(o, d, draw, prior, now);
    ShapeKept(o, d, draw, now);
    SameShapeFacts(d, Updated(o, d, draw, now));
  }

  lemma FirstStepInv(o: Options, start: ChainData, draw: Draw, now: Time)
    requires Workable(o) && Starts(o, start, now)
    ensures Inv(o, Step(o, start, draw, now), now) && HasBundle(Step(o, start, draw, now))
  {
    hide FindRotationDeadlineForCA, FindRotationDeadlineForCerts, Verifies, Updated;
    var d := Decoded(start);
    DecodedIsCoherent(start);
    assert AllHosted(d);
    InvEstablished(o, d, draw, now);
    ShapeKept(o, d, draw, now);
    SameShapeFacts(d, Updated(o, d, draw, now));
  }

  /** The invariant holds after every update of every run. */
  lemma {:induction false} RunInvariant(o: Options, start: ChainData, ticks: seq<Tick>)
    requires Workable(o) && ticks != [] && Ordered(ticks) && Starts(o, start, ticks[0].now)
    ensures Inv(o, Run(o, start, ticks), Last(ticks).now) && HasBundle(Run(o, start, ticks))
  {
    hide Starts, Step, Inv, HasBundle;
    var before := ticks[..|ticks| - 1];
    if before == [] {
      FirstStepInv(o, start, ticks[0].draw, ticks[0].now);
    } else {
      RunInvariant(o, start, before);
      StepKeepsInv(o, Run(o, start, before), Last(ticks).draw, Last(before).now, Last(ticks).now);
    }
  }

  // ---- Order in bundles ----

  predicate SortedUntil(certs: seq<Certificate>, limit: int) {
    Sorted(certs) && forall c <- certs :: c.notAfterSeconds <= limit
  }

  /** Bundles are sorted by expiration, and a CA certificate issued now would be the last to expire. */
  predicate BundlesSorted(o: Options, d: ChainData, now: Time) {
    forall n <- d.issued, b <- d.issued[n].caCerts :: SortedUntil(d.issued[n].caCerts[b], Seconds(now + o.caRotateInterval))
  }

  lemma UnexpiredSortedUntil(certs: seq<Certificate>, limit: int, now: Time)
    requires SortedUntil(certs, limit)
    ensures SortedUntil(CleanedUp(certs, now), limit)
  {
    UnexpiredSorted(certs, now);
    forall c <- Unexpired(certs, now) ensures c in certs {
      UnexpiredMember(certs, now, c);
    }
  }

  lemma AppendedSortedUntil(certs: seq<Certificate>, earlier: int, limit: int, ca: Certificate)
    requires SortedUntil(certs, earlier) && earlier <= limit
    ensures SortedUntil(certs, limit)
    ensures ca.notAfterSeconds == limit ==> SortedUntil(certs + [ca], limit)
  {
    assert forall j :: 0 <= j < |certs| ==> certs[j] in certs;
  }

  lemma RotatedBundlesSorted(o: Options, d: ChainData, draw: Draw, prior: Time, now: Time)
    requires BundlesSorted(o, d, prior) && prior <= now
    ensures BundlesSorted(o, Rotated(o, d, draw, now), now)
  {
    hide ActionAt, SortedUntil, EncodedCerts;
    var ca := NewCA(d.ca.name, draw.ca, o.caRotateInterval, now).cert;
    var earlier, limit := Seconds(prior + o.caRotateInterval), Seconds(now + o.caRotateInterval);
    forall n <- d.issued, b <- d.issued[n].caCerts
      ensures SortedUntil(d.issued[n].caCerts[b], limit) && SortedUntil(d.issued[n].caCerts[b] + [ca], limit)
    {
      AppendedSortedUntil(d.issued[n].caCerts[b], earlier, limit, ca);
    }
    assert ActionAt(o, d, now) == RotateAll ==> BundlesSorted(o, RotatedAll(o, d, draw, now), now);
  }

  lemma UpdateKeepsBundlesSorted(o: Options, d: ChainData, draw: Draw, prior: Time, now: Time)
    requires BundlesSorted(o, d, prior) && prior <= now
    ensures BundlesSorted(o, Updated(o, d, draw, now), now)
  {
    hide FindCleanUpDeadlineForCACerts, FindCleanUpDeadlineForCerts, Rotated, SortedUntil, CleanedUp;
    var r, limit := Rotated(o, d, draw, now), Seconds(now + o.caRotateInterval);
    RotatedBundlesSorted(o, d, draw, prior, now);
    forall n <- r.issued, b <- r.issued[n].caCerts ensures SortedUntil(CleanedUp(r.issued[n].caCerts[b], now), limit) {
      UnexpiredSortedUntil(r.issued[n].caCerts[b], limit, now);
    }
  }

  /** In every run from sorted bundles, blank ones in particular, all bundles stay sorted. */
  lemma {:induction false} RunBundlesSorted(o: Options, start: ChainData, ticks: seq<Tick>)
    requires Workable(o) && ticks != [] && Ordered(ticks) && Starts(o, start, ticks[0].now)
    requires BundlesSorted(o, Decoded(start), ticks[0].now)
    ensures BundlesSorted(o, Run(o, start, ticks), Last(ticks).now)
  {
    hide Starts, Inv, HasBundle, BundlesSorted, Updated, Decoded;
    var before := ticks[..|ticks| - 1];
    if before == [] {
      UpdateKeepsBundlesSorted(o, Decoded(start), ticks[0].draw, ticks[0].now, ticks[0].now);
    } else {
      RunInvariant(o, start, before);
      RunBundlesSorted(o, start, before);
      StepKeepsInv(o, Run(o, start, before), Last(ticks).draw, Last(before).now, Last(ticks).now);
      UpdateKeepsBundlesSorted(o, Run(o, start, before), Last(ticks).draw, Last(before).now, Last(ticks).now);
    }
  }

  // ---- Trust continuity ----

  lemma {:induction false} CleanedUpKeeps(certs: seq<Certificate>, now: Time, c: Certificate)
    requires c in certs && now < c.NotAfter()
    ensures c in CleanedUp(certs, now)
  {
    UnexpiredMember(certs, now, c);
  }

  lemma RotatedKeepsCA(o: Options, d: ChainData, draw: Draw, now: Time, n: string, b: string, c: Certificate)
    requires n in d.issued && b in d.issued[n].caCerts && c in d.issued[n].caCerts[b]
    ensures var r := Rotated(o, d, draw, now);
            n in r.issued && b in r.issued[n].caCerts && c in r.issued[n].caCerts[b]
  {
    hide ActionAt;
  }

  /** No update takes an unexpired certificate out of a bundle, whatever the data. */
  lemma UpdateKeepsCA(o: Options, d: ChainData, draw: Draw, now: Time, n: string, b: string, c: Certificate)
    requires n in d.issued && b in d.issued[n].caCerts && c in d.issued[n].caCerts[b] && now < c.NotAfter()
    ensures var u := Updated(o, d, draw, now);
            n in u.issued && b in u.issued[n].caCerts && c in u.issued[n].caCerts[b]
  {
    hide FindCleanUpDeadlineForCACerts, FindCleanUpDeadlineForCerts, Rotated;
    var r := Rotated(o, d, draw, now);
    RotatedKeepsCA(o, d, draw, now, n, b, c);
    CleanedUpKeeps(r.issued[n].caCerts[b], now, c);
  }

  /** The bundles of an issue hold what their PEM data decode to. */
  predicate ReadableBundles(i: CertificateIssue) {
    && i.caCerts.Keys == i.caCertPEM.Keys
    && forall b <- i.caCertPEM :: CertsIn(i.caCertPEM[b]) == i.caCerts[b]
  }

  predicate BundlesCoherent(d: ChainData) {
    forall n <- d.issued :: ReadableBundles(d.issued[n])
  }

  lemma ReadableAfterCleanUp(i: CertificateIssue, now: Time)
    requires ReadableBundles(i)
    ensures ReadableBundles(WithBundlesCleanedUp(i, now))
  {
    hide CleanedUp, EncodedCerts, CertsIn;
    forall b <- i.caCerts ensures CertsIn(EncodedCerts(CleanedUp(i.caCerts[b], now))) == CleanedUp(i.caCerts[b], now) {
      ParseAfterEncode(CleanedUp(i.caCerts[b], now));
    }
  }

  lemma ReadableAfterRotation(o: Options, i: CertificateIssue, ca: KeyPair, key: KeyId, now: Time)
    requires ReadableBundles(i)
    ensures ReadableBundles(RotatedIssue(o, ca, WithCACert(i, ca.cert), key, now, Reset))
  {
    hide EncodedCerts, CertsIn, SignedKeyPair;
    forall b <- i.caCerts ensures CertsIn(EncodedCerts(i.caCerts[b] + [ca.cert])) == i.caCerts[b] + [ca.cert] {
      ParseAfterEncode(i.caCerts[b] + [ca.cert]);
    }
  }

  lemma CleanedBundlesCoherent(d: ChainData, now: Time)
    requires BundlesCoherent(d)
    ensures BundlesCoherent(CACleaned(d, now)) && BundlesCoherent(CertsCleaned(d, now))
  {
    hide FindCleanUpDeadlineForCACerts, FindCleanUpDeadlineForCerts, WithBundlesCleanedUp, EncodedCerts, CertsIn, CleanedUp;
    forall n <- d.issued ensures ReadableBundles(WithBundlesCleanedUp(d.issued[n], now)) {
      ReadableAfterCleanUp(d.issued[n], now);
    }
  }

  lemma RotatedAllBundlesCoherent(o: Options, d: ChainData, draw: Draw, now: Time)
    requires BundlesCoherent(d)
    ensures BundlesCoherent(RotatedAll(o, d, draw, now))
  {
    hide RotatedIssue, WithCACert, ReadableBundles;
    var ca := NewCA(d.ca.name, draw.ca, o.caRotateInterval, now);
    forall n <- d.issued ensures ReadableBundles(RotatedAll(o, d, draw, now).issued[n]) {
      ReadableAfterRotation(o, d.issued[n], ca, LeafKey(draw, n), now);
    }
  }

  lemma RotatedBundlesCoherent(o: Options, d: ChainData, draw: Draw, now: Time)
    requires BundlesCoherent(d)
    ensures BundlesCoherent(Rotated(o, d, draw, now))
  {
    hide ActionAt, RotatedAll, CertsIn;
    RotatedAllBundlesCoherent(o, d, draw, now);
  }

  lemma UpdatedBundlesCoherent(o: Options, d: ChainData, draw: Draw, now: Time)
    requires BundlesCoherent(d)
    ensures BundlesCoherent(Updated(o, d, draw, now))
  {
    hide BundlesCoherent, Rotated, CACleaned, CertsCleaned;
    RotatedBundlesCoherent(o, d, draw, now);
    CleanedBundlesCoherent(Rotated(o, d, draw, now), now);
    CleanedBundlesCoherent(CACleaned(Rotated(o, d, draw, now), now), now);
  }

  /** Whoever trusts a bundle trusts it no less afterwards: no unexpired certificate is gone. */
  predicate KeepsUnexpired(before: PEM, after: PEM, now: Time) {
    forall c <- CertsIn(before) :: now < c.NotAfter() ==> c in CertsIn(after)
  }

  predicate TrustKept(d: ChainData, e: ChainData, now: Time) {
    forall n <- d.issued, b <- d.issued[n].caCertPEM ::
      n in e.issued && b in e.issued[n].caCertPEM
      && KeepsUnexpired(d.issued[n].caCertPEM[b], e.issued[n].caCertPEM[b], now)
  }

  /** What a bundle says in PEM data keeps its unexpired certificates through every update of any data. */
  lemma StepKeepsTrust(o: Options, d: ChainData, draw: Draw, now: Time)
    ensures TrustKept(d, Step(o, d, draw, now), now)
  {
    hide Updated, CertsIn;
    var f, e := Decoded(d), Step(o, d, draw, now);
    assert BundlesCoherent(f);
    UpdatedBundlesCoherent(o, f, draw, now);
    ShapeKept(o, f, draw, now);
    forall n <- d.issued, b <- d.issued[n].caCertPEM
      ensures n in e.issued && b in e.issued[n].caCertPEM
      ensures KeepsUnexpired(d.issued[n].caCertPEM[b], e.issued[n].caCertPEM[b], now)
    {
      assert SameIssue(f.issued[n], e.issued[n]);
      forall c <- CertsIn(d.issued[n].caCertPEM[b]) | now < c.NotAfter() ensures c in CertsIn(e.issued[n].caCertPEM[b]) {
        UpdateKeepsCA(o, f, draw, now, n, b, c);
      }
    }
  }

  lemma {:induction false} RunKeepsCA(o: Options, start: ChainData, ticks: seq<Tick>, i: nat, j: nat,
                                      n: string, b: string, c: Certificate)
    requires Workable(o) && Ordered(ticks) && 1 <= i <= j <= |ticks| && Starts(o, start, ticks[0].now)
    requires var d := Run(o, start, ticks[..i]);
             n in d.issued && b in d.issued[n].caCerts && c in d.issued[n].caCerts[b]
    requires ticks[j - 1].now < c.NotAfter()
    ensures var e := Run(o, start, ticks[..j]);
            n in e.issued && b in e.issued[n].caCerts && c in e.issued[n].caCerts[b]
    decreases j - i
  {
    hide Starts, Step, Inv, HasBundle, Run;
    if i < j {
      RunKeepsCA(o, start, ticks, i, j - 1, n, b, c);
      var before := Run(o, start, ticks[..j - 1]);
      OrderedPrefix(ticks, j - 1);
      RunInvariant(o, start, ticks[..j - 1]);
      StepKeepsInv(o, before, ticks[j - 1].draw, Last(ticks[..j - 1]).now, ticks[j - 1].now);
      UpdateKeepsCA(o, before, ticks[j - 1].draw, ticks[j - 1].now, n, b, c);
      RunStep(o, start, ticks, j - 1);
    }
  }

  /** In current data every bundle holds the CA certificate, and it signs every issued certificate. */
  lemma SignerInBundle(o: Options, d: ChainData, prior: Time, n: string, b: string, leaf: Certificate, t: Time)
    requires Inv(o, d, prior) && n in d.issued && b in d.issued[n].caCerts && leaf in d.issued[n].certs
    requires prior <= t <= leaf.NotAfter() && t <= CACert(d).value.NotAfter()
    ensures CACert(d).value in d.issued[n].caCerts[b]
    ensures Vouches(CACert(d).value, leaf, t)
  {
    hide CoherentIssue, DecodedCA, BundlesUnexpired, CertsUnexpired, Sorted;
    assert IssuedBy(o, leaf, d.ca.keyPair.value, d.issued[n].name, d.issued[n].hostnames, prior);
    assert Last(d.issued[n].caCerts[b]) == CACert(d).value;
  }

  lemma BundleHolds(o: Options, d: ChainData, prior: Time, n: string, b: string, c: Certificate)
    requires Inv(o, d, prior) && n in d.issued && b in d.issued[n].caCerts && c in d.issued[n].caCerts[b]
    ensures b in d.issued[n].caCertPEM && InPool(c, d.issued[n].caCertPEM[b])
  {
    hide InPool, CertsIn, CurrentCA, BundlesUnexpired, CertsUnexpired, Sorted, IssuedBy;
    assert CoherentIssue(d.issued[n]);
    assert b in DecodedIssue(d.issued[n]).caCerts;
    FoundCertsAreInPool(d.issued[n].caCertPEM[b], c);
  }

  lemma BundleNames(o: Options, d: ChainData, prior: Time, n: string)
    requires Inv(o, d, prior) && n in d.issued
    ensures d.issued[n].caCerts.Keys == d.issued[n].caCertPEM.Keys
  {
    hide CertsIn, CurrentCA, BundlesUnexpired, CertsUnexpired, Sorted, IssuedBy;
    assert CoherentIssue(d.issued[n]);
    assert DecodedIssue(d.issued[n]).caCerts.Keys == d.issued[n].caCertPEM.Keys;
  }

  /** After the i-th update the CA of that moment vouches for a listed certificate. */
  lemma SignerAt(o: Options, start: ChainData, ticks: seq<Tick>, i: nat, n: string, b: string, leaf: Certificate, t: Time)
    requires Workable(o) && Ordered(ticks) && 1 <= i <= |ticks| && Starts(o, start, ticks[0].now)
    requires var d := Run(o, start, ticks[..i]);
             && n in d.issued && b in d.issued[n].caCerts && leaf in d.issued[n].certs && CACert(d).Some?
             && ticks[i - 1].now <= t <= CACert(d).value.NotAfter() && t <= leaf.NotAfter()
    ensures var d := Run(o, start, ticks[..i]);
            CACert(d).value in d.issued[n].caCerts[b] && Vouches(CACert(d).value, leaf, t)
  {
    hide Starts, HasBundle, Run, Inv, Vouches;
    OrderedPrefix(ticks, i);
    RunInvariant(o, start, ticks[..i]);
    SignerInBundle(o, Run(o, start, ticks[..i]), ticks[i - 1].now, n, b, leaf, t);
  }

  /** After the j-th update a certificate in a bundle is in the pool that its PEM data make. */
  lemma PooledAt(o: Options, start: ChainData, ticks: seq<Tick>, j: nat, n: string, b: string, c: Certificate)
    requires Workable(o) && Ordered(ticks) && 1 <= j <= |ticks| && Starts(o, start, ticks[0].now)
    requires var e := Run(o, start, ticks[..j]); n in e.issued && b in e.issued[n].caCerts && c in e.issued[n].caCerts[b]
    ensures var e := Run(o, start, ticks[..j]); b in e.issued[n].caCertPEM && InPool(c, e.issued[n].caCertPEM[b])
  {
    hide Starts, HasBundle, Run, Inv, InPool;
    OrderedPrefix(ticks, j);
    RunInvariant(o, start, ticks[..j]);
    BundleHolds(o, Run(o, start, ticks[..j]), ticks[j - 1].now, n, b, c);
  }

  /** A bundle of one update is a bundle of the others. */
  lemma BundleEarlier(o: Options, start: ChainData, ticks: seq<Tick>, i: nat, j: nat, n: string, b: string)
    requires Workable(o) && Ordered(ticks) && 1 <= i <= j <= |ticks| && Starts(o, start, ticks[0].now)
    requires var e := Run(o, start, ticks[..j]); n in e.issued && b in e.issued[n].caCertPEM
    ensures var d := Run(o, start, ticks[..i]); n in d.issued && b in d.issued[n].caCerts
  {
    hide Starts, HasBundle, Run, Inv;
    var d, e := Run(o, start, ticks[..i]), Run(o, start, ticks[..j]);
    OrderedPrefix(ticks, j);
    RunInvariant(o, start, ticks[..j]);
    BundleNames(o, e, ticks[j - 1].now, n);
    RunShape(o, start, ticks, i, j);
    assert SameIssue(d.issued[n], e.issued[n]);
  }

  /**
   * Trust continuity: a certificate listed after the i-th update of a run, and
   * signed by the CA of that moment, verifies against every bundle of its issue
   * after any later update j, for as long as it lasts and its signer does: a
   * client that still serves an old certificate is trusted by every bundle.
   */
  lemma TrustContinuity(o: Options, start: ChainData, ticks: seq<Tick>, i: nat, j: nat,
                        n: string, b: string, leaf: Certificate, t: Time)
    requires Workable(o) && Ordered(ticks) && 1 <= i <= j <= |ticks| && Starts(o, start, ticks[0].now)
    requires var d, e := Run(o, start, ticks[..i]), Run(o, start, ticks[..j]);
             && n in d.issued && leaf in d.issued[n].certs
             && n in e.issued && b in e.issued[n].caCertPEM
             && CACert(d).Some?
             && ticks[j - 1].now < CACert(d).value.NotAfter()
             && ticks[j - 1].now <= t <= CACert(d).value.NotAfter() && t <= leaf.NotAfter()
    ensures VerifiesAgainst(leaf, Run(o, start, ticks[..j]).issued[n].caCertPEM[b], t)
  {
    hide Starts, Run, InPool, Vouches;
    var ca := CACert(Run(o, start, ticks[..i])).value;
    BundleEarlier(o, start, ticks, i, j, n, b);
    assert ticks[i - 1].now <= ticks[j - 1].now;
    SignerAt(o, start, ticks, i, n, b, leaf, t);
    RunKeepsCA(o, start, ticks, i, j, n, b, ca);
    PooledAt(o, start, ticks, j, n, b, ca);
  }

  lemma {:induction false} RunShape(o: Options, start: ChainData, ticks: seq<Tick>, i: nat, j: nat)
    requires Workable(o) && Ordered(ticks) && 1 <= i <= j <= |ticks| && Starts(o, start, ticks[0].now)
    ensures SameShape(Run(o, start, ticks[..i]), Run(o, start, ticks[..j]))
    decreases j - i
  {
    hide Starts, Step, Inv, HasBundle, Run;
    if i < j {
      var before := Run(o, start, ticks[..j - 1]);
      RunShape(o, start, ticks, i, j - 1);
      OrderedPrefix(ticks, j - 1);
      RunInvariant(o, start, ticks[..j - 1]);
      StepKeepsInv(o, before, ticks[j - 1].draw, Last(ticks[..j - 1]).now, ticks[j - 1].now);
      ShapeKept(o, before, ticks[j - 1].draw, ticks[j - 1].now);
      RunStep(o, start, ticks, j - 1);
      ShapeTransitive(Run(o, start, ticks[..i]), before, Run(o, start, ticks[..j]));
    }
  }

  // ---- The returned time, in runs ----

  /** What the k-th update returns. */
  ghost function Returned(o: Options, start: ChainData, ticks: seq<Tick>, k: nat): Time
    requires k < |ticks|
  {
    StepAt(o, Run(o, start, ticks[..k]), ticks[k].draw, ticks[k].now)
  }

  lemma FirstReturned(o: Options, start: ChainData, draw: Draw, now: Time)
    requires Workable(o) && Starts(o, start, now)
    ensures StepAt(o, start, draw, now) == NextDeadline(o, Step(o, start, draw, now))
  {
    hide ActionAt, HasBundle, NextDeadline, UpdateAt, Updated;
    var d := Decoded(start);
    DecodedIsCoherent(start);
    assert AllHosted(d);
    RotatedAllIsCurrent(o, d, draw, now);
    InvLastsUnexpired(o, Rotated(o, d, draw, now), now);
    ReturnedTimeIsNextDeadline(o, d, draw, now);
  }

  lemma LaterReturned(o: Options, d: ChainData, draw: Draw, prior: Time, now: Time)
    requires Workable(o) && Inv(o, d, prior) && HasBundle(d) && prior <= now
    ensures StepAt(o, d, draw, now) == NextDeadline(o, Step(o, d, draw, now))
  {
    hide ActionAt, HasBundle, NextDeadline, UpdateAt, Updated;
    CoherentIssues(d);
    if ActionAt(o, d, now) == RotateAll {
      RotatedAllIsCurrent(o, d, draw, now);
    } else {
      RotatedIsCurrent(o, d, draw, prior, now);
    }
    InvLastsUnexpired(o, Rotated(o, d, draw, now), now);
    ReturnedTimeIsNextDeadline(o, d, draw, now);
  }

  lemma ReturnedIsNextDeadline(o: Options, start: ChainData, ticks: seq<Tick>, k: nat)
    requires Workable(o) && Ordered(ticks) && k < |ticks| && Starts(o, start, ticks[0].now)
    ensures Returned(o, start, ticks, k) == NextDeadline(o, Run(o, start, ticks[..k + 1]))
  {
    hide Starts, Step, Inv, HasBundle, Run, NextDeadline, StepAt;
    RunStep(o, start, ticks, k);
    if k == 0 {
      RunEmpty(o, start, ticks);
      FirstReturned(o, start, ticks[0].draw, ticks[0].now);
    } else {
      OrderedPrefix(ticks, k);
      RunInvariant(o, start, ticks[..k]);
      LaterReturned(o, Run(o, start, ticks[..k]), ticks[k].draw, Last(ticks[..k]).now, ticks[k].now);
    }
  }

  lemma RunEmpty(o: Options, start: ChainData, ticks: seq<Tick>)
    ensures Run(o, start, ticks[..0]) == start
  {
  }

  /**
   * The prediction holds in every run: after an update that returned u, an
   * update at any later time changes the data if and only if it comes at u or
   * later, and returns u again if it comes before.
   */
  lemma RunPrediction(o: Options, start: ChainData, ticks: seq<Tick>, draw: Draw, now: Time)
    requires Workable(o) && ticks != [] && Ordered(ticks) && Starts(o, start, ticks[0].now)
    requires Last(ticks).now <= now && NewKeys(Run(o, start, ticks), draw, ActionAt(o, Run(o, start, ticks), now))
    ensures var d, u := Run(o, start, ticks), Returned(o, start, ticks, |ticks| - 1);
            && (Step(o, d, draw, now) == d <==> now < u)
            && (now < u ==> StepAt(o, d, draw, now) == u)
  {
    hide Starts, Step, Inv, HasBundle, Run, NextDeadline, StepAt, NewKeys;
    assert ticks[..|ticks|] == ticks;
    RunInvariant(o, start, ticks);
    ReturnedIsNextDeadline(o, start, ticks, |ticks| - 1);
    PredictionIsExact(o, Run(o, start, ticks), draw, Last(ticks).now, now);
  }
}
