/** What filtering, deadlines and decoding do, list by list and issue by issue. */
module ChainFacts {
  import opened Common
  import opened Triple
  import opened ChainOptions
  import opened ChainModel
  import FloatDuration

  // ---- Unexpired ----

  lemma {:induction false} UnexpiredMember(certs: seq<Certificate>, now: Time, c: Certificate)
    ensures c in Unexpired(certs, now) <==> c in certs && c.NotAfter() > now
  {
    if certs != [] {
      UnexpiredMember(certs[1..], now, c);
      assert c in certs <==> c == certs[0] || c in certs[1..];
    }
  }

  lemma {:induction false} UnexpiredConcat(a: seq<Certificate>, b: seq<Certificate>, now: Time)
    ensures Unexpired(a + b, now) == Unexpired(a, now) + Unexpired(b, now)
  {
    if a == [] {
      assert a + b == b;
    } else {
      assert (a + b)[1..] == a[1..] + b;
      UnexpiredConcat(a[1..], b, now);
    }
  }

  /** Filtering changes a list exactly when something in it expired. */
  lemma {:induction false} UnexpiredSame(certs: seq<Certificate>, now: Time)
    ensures |Unexpired(certs, now)| <= |certs|
    ensures Unexpired(certs, now) == certs <==> forall i :: 0 <= i < |certs| ==> certs[i].NotAfter() > now
  {
    if certs != [] {
      UnexpiredSame(certs[1..], now);
      if certs[0].NotAfter() > now {
        assert forall i :: 1 <= i < |certs| ==> certs[i] == certs[1..][i - 1];
        assert certs == [certs[0]] + certs[1..];
        if Unexpired(certs, now) == certs {
          assert Unexpired(certs[1..], now) == certs[1..];
        }
      }
    }
  }

  lemma UnexpiredLast(certs: seq<Certificate>, now: Time)
    requires certs != [] && Last(certs).NotAfter() > now
    ensures Unexpired(certs, now) != [] && Last(Unexpired(certs, now)) == Last(certs)
  {
    var front := certs[..|certs| - 1];
    assert certs == front + [Last(certs)];
    UnexpiredConcat(front, [Last(certs)], now);
  }

  /** An unexpired last certificate survives, and then nothing expired is left. */
  lemma CleanedUpKeepsLast(certs: seq<Certificate>, now: Time)
    requires certs != [] && Last(certs).NotAfter() > now
    ensures CleanedUp(certs, now) == Unexpired(certs, now)
    ensures CleanedUp(certs, now) != [] && Last(CleanedUp(certs, now)) == Last(certs)
    ensures forall c <- CleanedUp(certs, now) :: c in certs && c.NotAfter() > now
  {
    UnexpiredLast(certs, now);
    forall c | c in Unexpired(certs, now) ensures c in certs && c.NotAfter() > now {
      UnexpiredMember(certs, now, c);
    }
    if |certs| == 1 {
      assert certs == [certs[0]];
    }
  }

  // ---- Deadlines ----

  /** Validities and overlaps that float64 arithmetic handles to within 512 ns. */
  predicate Measurable(c: Certificate, overlap: Time) {
    && FloatDuration.Abs(c.NotAfter() - c.NotBefore()) < FloatDuration.DURATION_LIMIT
    && 0 <= overlap < FloatDuration.DURATION_LIMIT
    && overlap - (c.NotAfter() - c.NotBefore()) + 512 < FloatDuration.DURATION_LIMIT
  }

  /** A rotation falls due an overlap before the expiration, give or take 512 ns, and never after it. */
  lemma DeadlineNear(c: Certificate, overlap: Time)
    requires Measurable(c, overlap)
    ensures NextRotationDeadline(c, overlap) <= c.NotAfter()
    ensures FloatDuration.Abs(NextRotationDeadline(c, overlap) - (c.NotAfter() - overlap)) <= 512
    ensures overlap % 512 == 0 || FloatDuration.Abs(c.NotAfter() - c.NotBefore()) + overlap < FloatDuration.EXACT_LIMIT ==>
              NextRotationDeadline(c, overlap) == c.NotAfter() - overlap
  {
    var seconds := c.notAfterSeconds - c.notBeforeSeconds;
    assert c.NotAfter() - c.NotBefore() == seconds * SECOND;
    FloatDuration.SubtractNear(seconds, overlap);
  }

  lemma SomeBundle(d: ChainData) returns (n: string, b: string)
    requires HasBundle(d)
    ensures n in d.issued && b in d.issued[n].caCerts
  {
    n :| n in d.issued && |d.issued[n].caCerts| > 0;
    b := SomeOf(d.issued[n].caCerts.Keys);
  }

  /** The CA is due when the last certificate of some bundle is, at once if there is none. */
  lemma CADeadline(o: Options, d: ChainData)
    ensures HasEmptyBundle(d) || !HasBundle(d) ==> FindRotationDeadlineForCA(o, d) == 0
    ensures !HasEmptyBundle(d) && HasBundle(d) ==>
              exists n <- d.issued, b <- d.issued[n].caCerts :: d.issued[n].caCerts[b] != [] &&
                FindRotationDeadlineForCA(o, d) == NextRotationDeadline(Last(d.issued[n].caCerts[b]), o.caOverlapInterval)
    ensures !HasEmptyBundle(d) ==>
              forall n <- d.issued, b <- d.issued[n].caCerts :: d.issued[n].caCerts[b] != [] &&
                FindRotationDeadlineForCA(o, d) <= NextRotationDeadline(Last(d.issued[n].caCerts[b]), o.caOverlapInterval)
  {
    if !HasEmptyBundle(d) {
      forall n <- d.issued, b <- d.issued[n].caCerts
        ensures NextRotationDeadline(Last(d.issued[n].caCerts[b]), o.caOverlapInterval) in CADeadlines(o, d)
      {
      }
      if HasBundle(d) {
        var n :| n in d.issued && |d.issued[n].caCerts| > 0;
        var b := SomeOf(d.issued[n].caCerts.Keys);
        assert NextRotationDeadline(Last(d.issued[n].caCerts[b]), o.caOverlapInterval) in CADeadlines(o, d);
      } else {
        assert CADeadlines(o, d) == {};
      }
    }
  }

  /** When all bundles end with the same certificate, the CA is due when it is. */
  lemma CommonCADeadline(o: Options, d: ChainData, c: Certificate)
    requires HasBundle(d)
    requires forall n <- d.issued, b <- d.issued[n].caCerts :: d.issued[n].caCerts[b] != [] && Last(d.issued[n].caCerts[b]) == c
    ensures FindRotationDeadlineForCA(o, d) == NextRotationDeadline(c, o.caOverlapInterval)
  {
    var n :| n in d.issued && |d.issued[n].caCerts| > 0;
    var b := SomeOf(d.issued[n].caCerts.Keys);
    assert Last(d.issued[n].caCerts[b]) == c;
    assert NextRotationDeadline(Last(d.issued[n].caCerts[b]), o.caOverlapInterval) in CADeadlines(o, d);
    assert CADeadlines(o, d) == {NextRotationDeadline(c, o.caOverlapInterval)};
  }

  /** Where a certificate is missing, or there is none at all, the deadline is the zero time. */
  lemma CertDeadlineMissing(o: Options, d: ChainData)
    requires d.issued.Keys == {} || exists n <- d.issued :: d.issued[n].certs == []
    ensures FindRotationDeadlineForCerts(o, d) == 0
  {
    if d.issued.Keys == {} {
      assert CertDeadlines(o, d) == {};
    }
  }

  lemma CertDeadline(o: Options, d: ChainData)
    requires forall n <- d.issued :: d.issued[n].certs != []
    ensures forall n <- d.issued ::
              FindRotationDeadlineForCerts(o, d) <= NextRotationDeadline(Last(d.issued[n].certs), o.certOverlapInterval)
    ensures d.issued.Keys != {} ==> exists n <- d.issued ::
              FindRotationDeadlineForCerts(o, d) == NextRotationDeadline(Last(d.issued[n].certs), o.certOverlapInterval)
  {
    forall n <- d.issued
      ensures NextRotationDeadline(Last(d.issued[n].certs), o.certOverlapInterval) in CertDeadlines(o, d)
    {
    }
    if d.issued.Keys != {} {
      var n := SomeOf(d.issued.Keys);
      assert NextRotationDeadline(Last(d.issued[n].certs), o.certOverlapInterval) in CertDeadlines(o, d);
    }
  }

  lemma CAExpiration(d: ChainData, n: string, b: string, c: Certificate)
    requires n in d.issued && b in d.issued[n].caCerts && c in d.issued[n].caCerts[b]
    ensures FindCleanUpDeadlineForCACerts(d) <= c.NotAfter()
  {
    var j :| 0 <= j < |d.issued[n].caCerts[b]| && d.issued[n].caCerts[b][j] == c;
    assert d.issued[n].caCerts[b][j].NotAfter() in CAExpirations(d);
  }

  lemma CertExpiration(d: ChainData, n: string, c: Certificate)
    requires n in d.issued && c in d.issued[n].certs
    ensures FindCleanUpDeadlineForCerts(d) <= c.NotAfter()
  {
    var j :| 0 <= j < |d.issued[n].certs| && d.issued[n].certs[j] == c;
    assert d.issued[n].certs[j].NotAfter() in CertExpirations(d);
  }

  // ---- Coherence of PEM and decoded data, issue by issue ----

  predicate Coherent(d: ChainData) {
    Decoded(d) == d
  }

  predicate CoherentIssue(i: CertificateIssue) {
    DecodedIssue(i) == i
  }

  /**
   * A key pair decodes if the key found first is an RSA key, and the certificate
   * data hold certificates and no malformed ones. Otherwise neither the key nor
   * any certificate is kept.
   */
  lemma DecodedPairMeans(keyPEM: PEM, certPEM: PEM, k: KeyId)
    ensures var (key, certs) := DecodedKeyPair(keyPEM, certPEM);
            && (key == Some(k) <==>
                  && ParsedKey(keyPEM) == Some(RsaKey(k))
                  && (exists c :: Block(CertificateBlock, 0, CertificateDer(c)) in certPEM)
                  && forall b <- certPEM :: b.blockType == CertificateBlock && b.headers == 0 ==> b.der.CertificateDer?)
            && certs == if key.Some? then CertsIn(certPEM) else []
  {
    hide CertsIn, ParsedKey;
    ParsesMeans(certPEM);
  }

  lemma CoherentIssues(d: ChainData)
    ensures Coherent(d) <==> DecodedCA(d.ca) == d.ca && forall n <- d.issued :: CoherentIssue(d.issued[n])
  {
    var m := map n <- d.issued :: DecodedIssue(d.issued[n]);
    if Coherent(d) {
      forall n <- d.issued ensures CoherentIssue(d.issued[n]) {
        assert m[n] == d.issued[n];
      }
    } else if forall n <- d.issued :: CoherentIssue(d.issued[n]) {
      assert m == d.issued;
    }
  }

  lemma DecodedIsCoherent(d: ChainData)
    ensures Coherent(Decoded(d))
  {
    forall n <- d.issued ensures CoherentIssue(DecodedIssue(d.issued[n])) {
    }
    CoherentIssues(Decoded(d));
  }

  lemma CoherentWithCACert(i: CertificateIssue, cert: Certificate)
    requires CoherentIssue(i)
    ensures CoherentIssue(WithCACert(i, cert))
  {
    hide DecodedKeyPair, CertsIn, EncodedCerts;
    var j := WithCACert(i, cert);
    assert DecodedIssue(i).caCerts.Keys == i.caCertPEM.Keys;
    forall b <- j.caCertPEM ensures CertsIn(j.caCertPEM[b]) == j.caCerts[b] {
      ParseAfterEncode(i.caCerts[b] + [cert]);
    }
    assert DecodedIssue(j).caCerts == j.caCerts;
  }

  lemma CoherentWithBundle(i: CertificateIssue, b: string, certs: seq<Certificate>)
    requires CoherentIssue(i)
    ensures CoherentIssue(WithBundle(i, b, certs))
  {
    var j := WithBundle(i, b, certs);
    ParseAfterEncode(certs);
    forall k <- j.caCertPEM ensures CertsIn(j.caCertPEM[k]) == j.caCerts[k] {
      assert k != b ==> CertsIn(i.caCertPEM[k]) == DecodedIssue(i).caCerts[k];
    }
    assert DecodedIssue(j).caCerts == j.caCerts;
  }

  lemma CoherentBundlesCleanedUp(i: CertificateIssue, now: Time)
    requires CoherentIssue(i)
    ensures CoherentIssue(WithBundlesCleanedUp(i, now))
  {
    var j := WithBundlesCleanedUp(i, now);
    forall b <- j.caCertPEM ensures CertsIn(j.caCertPEM[b]) == j.caCerts[b] {
      ParseAfterEncode(CleanedUp(i.caCerts[b], now));
    }
    assert DecodedIssue(j).caCerts == j.caCerts;
  }

  lemma CoherentKeys(i: CertificateIssue, pair: KeyPair)
    requires CoherentIssue(i)
    ensures CoherentIssue(WithKeyReset(i, pair)) && CoherentIssue(WithKeyAppended(i, pair))
  {
    EncodedSingle(pair.cert);
    ParseAfterEncode([pair.cert]);
    ParseAfterEncode(i.certs + [pair.cert]);
  }

  lemma EncodedSingle(cert: Certificate)
    ensures EncodeCertPEM(cert) == EncodedCerts([cert])
  {
    assert EncodedCerts([cert][1..]) == [];
  }

  /** Without a key the certificates do not decode either, nor does an empty list. */
  lemma CoherentWithCerts(i: CertificateIssue, certs: seq<Certificate>)
    requires CoherentIssue(i)
    ensures CoherentIssue(WithCerts(i, certs)) <==> (certs != [] <==> i.key.Some?)
  {
    ParseAfterEncode(certs);
    assert i.key == DecodedKeyPair(i.keyPEM, i.certPEM).0;
  }

  lemma CoherentCA(ca: CA, pair: KeyPair)
    ensures var c := ca.(keyPair := Some(pair), keyPEM := EncodePrivateKeyPEM(pair.key), certPEM := EncodeCertPEM(pair.cert));
            DecodedCA(c) == c
  {
    EncodedSingle(pair.cert);
    ParseAfterEncode([pair.cert]);
  }
}
