/** Concrete chains on which an update does less than one might expect. */
module ChainSamples {
  import opened Common
  import opened Triple
  import opened ChainOptions
  import opened ChainModel
  import opened ChainFacts
  import opened ChainInvariant
  import opened ChainPrediction
  import opened ChainRepair
  import opened ChainRest
  import opened ChainVerdicts

  // ---- A chain that an update leaves unverified ----

  const SAMPLE_CA := Certificate("ca", 1, "ca", 1, [], true, 0, 1000)
  const SAMPLE_LEAF := Certificate("svc", 2, "ca", 1, ["svc"], false, 0, 100)
  const FOREIGN_LEAF := Certificate("svc", 2, "other", 3, ["svc"], false, 0, 1000)
  const SAMPLE_OPTIONS := Options(2000 * SECOND, 10 * SECOND, 2000 * SECOND, 10 * SECOND)

  function SampleIssue(): CertificateIssue {
    CertificateIssue("svc", ["svc"], EncodePrivateKeyPEM(2), EncodedCerts([SAMPLE_LEAF, FOREIGN_LEAF]),
                     map["bundle" := EncodedCerts([SAMPLE_CA])], Some(2), [SAMPLE_LEAF, FOREIGN_LEAF], map["bundle" := [SAMPLE_CA]])
  }

  function SampleChain(): ChainData {
    ChainData(map["svc" := SampleIssue()],
              CA("ca", EncodePrivateKeyPEM(1), EncodeCertPEM(SAMPLE_CA), Some(KeyPair(1, SAMPLE_CA))))
  }

  lemma SampleIsCoherent()
    ensures Coherent(SampleChain())
  {
    var i := SampleIssue();
    ParseAfterEncode(i.certs);
    ParseAfterEncode([SAMPLE_CA]);
    assert DecodedIssue(i).caCerts == i.caCerts;
    CoherentCA(SampleChain().ca, KeyPair(1, SAMPLE_CA));
    CoherentIssues(SampleChain());
  }

  lemma SampleVerifies()
    ensures Verifies(SampleChain(), 100 * SECOND)
  {
    var i := SampleIssue();
    ParseAfterEncode(i.certs);
    assert Signs(SAMPLE_CA, SAMPLE_LEAF, 100 * SECOND);
    VerifiesAgainstEncoded(SAMPLE_LEAF, [SAMPLE_CA], 100 * SECOND);
    assert SAMPLE_CA in [SAMPLE_CA];
  }

  lemma SampleDeadlines()
    ensures FindRotationDeadlineForCA(SAMPLE_OPTIONS, SampleChain()) == 990 * SECOND
    ensures FindRotationDeadlineForCerts(SAMPLE_OPTIONS, SampleChain()) == 990 * SECOND
  {
    hide FindRotationDeadlineForCA, FindRotationDeadlineForCerts, NextRotationDeadline;
    var d := SampleChain();
    assert d.issued["svc"].caCerts["bundle"] == [SAMPLE_CA];
    assert |d.issued["svc"].caCerts| > 0 && HasBundle(d);
    CommonCADeadline(SAMPLE_OPTIONS, d, SAMPLE_CA);
    DeadlineNear(SAMPLE_CA, 10 * SECOND);
    CertDeadline(SAMPLE_OPTIONS, d);
    DeadlineNear(FOREIGN_LEAF, 10 * SECOND);
    assert "svc" in d.issued.Keys;
  }

  lemma SampleCleaned(d: ChainData)
    requires "svc" in d.issued && d.issued["svc"].certs == [SAMPLE_LEAF, FOREIGN_LEAF]
    ensures "svc" in CertsCleaned(d, 100 * SECOND).issued
    ensures CertsCleaned(d, 100 * SECOND).issued["svc"].certs == [FOREIGN_LEAF]
  {
    hide FindCleanUpDeadlineForCerts;
    assert SAMPLE_LEAF in d.issued["svc"].certs;
    CertExpiration(d, "svc", SAMPLE_LEAF);
    var certs := [SAMPLE_LEAF, FOREIGN_LEAF];
    assert certs[1..] == [FOREIGN_LEAF] && [FOREIGN_LEAF][1..] == [];
    assert Unexpired(certs[1..], 100 * SECOND) == [FOREIGN_LEAF];
  }

  lemma SampleFails(d: ChainData, now: Time)
    requires Coherent(d) && "svc" in d.issued && d.issued["svc"].certs == [FOREIGN_LEAF]
    requires "bundle" in d.issued["svc"].caCertPEM && d.issued["svc"].caCertPEM["bundle"] == EncodedCerts([SAMPLE_CA])
    ensures !Verifies(d, now)
  {
    CoherentIssues(d);
    var i := d.issued["svc"];
    assert CoherentIssue(i);
    VerifiesAgainstEncoded(FOREIGN_LEAF, [SAMPLE_CA], now);
    assert !TLSVerifies(i.certPEM, i.keyPEM, i.caCertPEM["bundle"], now);
  }

  /**
   * An update need not leave verified data behind: here the first certificate
   * verifies at the very moment it expires and is then cleaned up, which leaves
   * a foreign one first. The returned time lies ahead, yet updating again at
   * once would rotate everything.
   */
  lemma UpdateMayLeaveUnverified(draw: Draw)
    ensures var o, d, now := SAMPLE_OPTIONS, SampleChain(), 100 * SECOND;
            && Workable(o) && Coherent(d) && MeasurableLists(o, d)
            && Verifies(d, now) && now < UpdateAt(o, d, draw, now)
            && !Verifies(Updated(o, d, draw, now), now)
  {
    hide FindRotationDeadlineForCA, FindRotationDeadlineForCerts, Verifies, FindCleanUpDeadlineForCACerts,
      FindCleanUpDeadlineForCerts, UpdateAt, Coherent, SampleIssue, CertsCleaned;
    var o, d, now := SAMPLE_OPTIONS, SampleChain(), 100 * SECOND;
    SampleIsCoherent();
    SampleVerifies();
    SampleDeadlines();
    SampleMeasurable();
    assert Rotated(o, d, draw, now) == d;
    SampleBundles(now);
    SampleCleaned(CACleaned(d, now));
    Progress(o, d, draw, now);
    UpdateIsCoherent(o, d, draw, now);
    SampleKeepsBundle(CACleaned(d, now), now);
    SampleFails(Updated(o, d, draw, now), now);
  }

  lemma SampleMeasurable()
    ensures MeasurableLists(SAMPLE_OPTIONS, SampleChain()) && HasBundle(SampleChain())
  {
    var d := SampleChain();
    assert d.issued["svc"].caCerts["bundle"] == [SAMPLE_CA];
    assert |d.issued["svc"].caCerts| > 0;
  }

  lemma SampleBundles(now: Time)
    ensures var c := CACleaned(SampleChain(), now);
            && "svc" in c.issued && c.issued["svc"].certs == [SAMPLE_LEAF, FOREIGN_LEAF]
            && "bundle" in c.issued["svc"].caCertPEM
            && c.issued["svc"].caCertPEM["bundle"] == EncodedCerts([SAMPLE_CA])
  {
    hide FindCleanUpDeadlineForCACerts;
  }

  lemma SampleKeepsBundle(d: ChainData, now: Time)
    requires "svc" in d.issued
    ensures CertsCleaned(d, now).issued["svc"].caCertPEM == d.issued["svc"].caCertPEM
  {
    hide FindCleanUpDeadlineForCerts;
  }

  // ---- A chain on which every update panics ----

  const NAMELESS_LEAF := Certificate("svc", 2, "ca", 1, [], false, 0, 1000)

  function NamelessIssue(): CertificateIssue {
    CertificateIssue("svc", ["svc"], EncodePrivateKeyPEM(2), EncodedCerts([NAMELESS_LEAF]),
                     map["bundle" := EncodedCerts([SAMPLE_CA])], Some(2), [NAMELESS_LEAF], map["bundle" := [SAMPLE_CA]])
  }

  function NamelessChain(): ChainData {
    ChainData(map["svc" := NamelessIssue()],
              CA("ca", EncodePrivateKeyPEM(1), EncodeCertPEM(SAMPLE_CA), Some(KeyPair(1, SAMPLE_CA))))
  }

  lemma NamelessIsCoherent()
    ensures Coherent(NamelessChain())
  {
    var i := NamelessIssue();
    ParseAfterEncode(i.certs);
    ParseAfterEncode([SAMPLE_CA]);
    assert DecodedIssue(i).caCerts == i.caCerts;
    CoherentCA(NamelessChain().ca, KeyPair(1, SAMPLE_CA));
    CoherentIssues(NamelessChain());
  }

  lemma NamelessDeadline()
    ensures FindRotationDeadlineForCA(SAMPLE_OPTIONS, NamelessChain()) == 990 * SECOND
  {
    hide FindRotationDeadlineForCA, NextRotationDeadline;
    var d := NamelessChain();
    assert d.issued["svc"].caCerts["bundle"] == [SAMPLE_CA];
    assert |d.issued["svc"].caCerts| > 0 && HasBundle(d);
    CommonCADeadline(SAMPLE_OPTIONS, d, SAMPLE_CA);
    DeadlineNear(SAMPLE_CA, 10 * SECOND);
  }

  lemma NamelessVerdict(n: string, b: string, now: Time)
    requires n in NamelessChain().issued && b in NamelessChain().issued[n].caCertPEM
    ensures Nameless(NamelessChain(), n, b)
  {
    ParseAfterEncode([NAMELESS_LEAF]);
    PoolAfterEncode([SAMPLE_CA], SAMPLE_CA);
    assert InPool(SAMPLE_CA, NamelessChain().issued[n].caCertPEM[b]);
  }

  /**
   * A signed, unexpired certificate without DNS names, stored by others: the
   * chain fails verification, but no update heals it, because each one panics.
   */
  lemma EveryUpdatePanics(order: seq<Visit>, draw: Draw)
    requires VisitsAll(NamelessChain(), order)
    ensures var o, d, now := SAMPLE_OPTIONS, NamelessChain(), 100 * SECOND;
            && Workable(o) && Coherent(d) && AllHosted(d) && AllNamed(d) && !Verifies(d, now)
            && MustPanic(o, d, now)
            && UpdateInOrder(o, d, order, draw, now).Panicked?
  {
    hide FindRotationDeadlineForCA, Verifies, NamelessIssue, Coherent, Nameless, BundleVerdict, VisitsAll, VerdictInOrder, Updated;
    var o, d, now := SAMPLE_OPTIONS, NamelessChain(), 100 * SECOND;
    NamelessIsCoherent();
    NamelessDeadline();
    NamelessShape();
    NamelessVerdict("svc", "bundle", now);
    NamelessFails(d, "svc", "bundle", now);
    forall n <- d.issued, b <- d.issued[n].caCertPEM ensures BundleVerdict(d, n, b, now) == Panics {
      NamelessVerdict(n, b, now);
      BundleTrusted(d, n, b, now);
    }
    UpdatePanics(o, d, draw, now);
  }

  lemma NamelessShape()
    ensures "svc" in NamelessChain().issued && "bundle" in NamelessChain().issued["svc"].caCertPEM
    ensures AllHosted(NamelessChain()) && AllNamed(NamelessChain())
  {
  }
}
