/**
 * All services and all bundles move in lockstep: one list of CA certificates
 * and one list of expirations describe them all. The rotation of a whole chain
 * refines a machine over these two lists.
 */
module ChainLockstep {
  import opened Common
  import opened Triple
  import opened ChainOptions
  import opened ChainModel
  import opened ChainFacts
  import opened ChainInvariant
  import opened ChainPrediction
  import opened ChainRepair
  import FloatDuration

  /** What every bundle holds, and when the certificates of every issue expire. */
  datatype Profile = Profile(cas: seq<Certificate>, ends: seq<int>)

  predicate EndsAre(certs: seq<Certificate>, ends: seq<int>) {
    |certs| == |ends| && forall i :: 0 <= i < |certs| ==> certs[i].notAfterSeconds == ends[i]
  }

  predicate Lockstep(d: ChainData, p: Profile) {
    forall n <- d.issued ::
      && EndsAre(d.issued[n].certs, p.ends)
      && forall b <- d.issued[n].caCerts :: d.issued[n].caCerts[b] == p.cas
  }

  // ---- The machine over two lists ----

  function Alive(ends: seq<int>, now: Time): seq<int> {
    if ends == [] then []
    else if ends[0] * SECOND > now then [ends[0]] + Alive(ends[1..], now)
    else Alive(ends[1..], now)
  }

  function ProfileRotated(o: Options, p: Profile, action: Action, ca: Certificate, now: Time): Profile {
    var end := Seconds(now + o.certRotateInterval);
    match action
    case RotateAll => Profile(p.cas + [ca], [end])
    case RotateCerts => Profile(p.cas, p.ends + [end])
    case Keep => p
  }

  function ProfileUpdated(o: Options, p: Profile, action: Action, ca: Certificate, now: Time): Profile {
    var r := ProfileRotated(o, p, action, ca, now);
    Profile(Unexpired(r.cas, now), Alive(r.ends, now))
  }

  /**
   * The decision, from the two lists alone: the CA rotates an overlap before
   * its last certificate expires, or once the first issued certificate has
   * expired; the issued certificates an overlap before the last of them does.
   */
  function ProfileAction(o: Options, p: Profile, now: Time): Action
    requires p.cas != [] && p.ends != []
  {
    if Last(p.cas).NotAfter() - o.caOverlapInterval <= now || p.ends[0] * SECOND < now then RotateAll
    else if Last(p.ends) * SECOND - o.certOverlapInterval <= now then RotateCerts
    else Keep
  }

  // ---- Refinement ----

  lemma {:induction false} AliveEnds(certs: seq<Certificate>, ends: seq<int>, now: Time)
    requires EndsAre(certs, ends)
    ensures EndsAre(Unexpired(certs, now), Alive(ends, now))
  {
    if certs != [] {
      AliveEnds(certs[1..], ends[1..], now);
    }
  }

  lemma LockstepRotatedAll(o: Options, d: ChainData, p: Profile, draw: Draw, now: Time)
    requires Lockstep(d, p)
    ensures var ca := NewCA(d.ca.name, draw.ca, o.caRotateInterval, now).cert;
            Lockstep(RotatedAll(o, d, draw, now), ProfileRotated(o, p, RotateAll, ca, now))
  {
    hide EncodedCerts, EndsAre;
    var r, end := RotatedAll(o, d, draw, now), Seconds(now + o.certRotateInterval);
    EndsReset([end]);
    forall n <- r.issued ensures EndsAre(r.issued[n].certs, [end]) {
    }
  }

  lemma EndsReset(ends: seq<int>)
    requires |ends| == 1
    ensures forall c: Certificate :: c.notAfterSeconds == ends[0] ==> EndsAre([c], ends)
  {
  }

  lemma EndsAppended(certs: seq<Certificate>, ends: seq<int>, c: Certificate)
    requires EndsAre(certs, ends)
    ensures EndsAre(certs + [c], ends + [c.notAfterSeconds])
  {
  }

  lemma LockstepRotatedCerts(o: Options, d: ChainData, ca: KeyPair, p: Profile, draw: Draw, now: Time)
    requires Lockstep(d, p)
    ensures Lockstep(RotatedCerts(o, d, ca, draw, now, Append),
                     Profile(p.cas, p.ends + [Seconds(now + o.certRotateInterval)]))
  {
    hide EncodedCerts, EndsAre;
    var r := RotatedCerts(o, d, ca, draw, now, Append);
    forall n <- r.issued ensures EndsAre(r.issued[n].certs, p.ends + [Seconds(now + o.certRotateInterval)]) {
      var i := d.issued[n];
      EndsAppended(i.certs, p.ends, SignedKeyPair(ca, i.name, i.hostnames, LeafKey(draw, n), o.certRotateInterval, now).cert);
    }
  }

  lemma LockstepRotated(o: Options, d: ChainData, p: Profile, draw: Draw, now: Time)
    requires Lockstep(d, p) && (ActionAt(o, d, now) == RotateCerts ==> d.ca.keyPair.Some?)
    ensures var ca := NewCA(d.ca.name, draw.ca, o.caRotateInterval, now).cert;
            Lockstep(Rotated(o, d, draw, now), ProfileRotated(o, p, ActionAt(o, d, now), ca, now))
  {
    hide ActionAt, Lockstep, RotatedAll, RotatedCerts, NewCA;
    match ActionAt(o, d, now)
    case RotateAll => LockstepRotatedAll(o, d, p, draw, now);
    case RotateCerts => LockstepRotatedCerts(o, d, d.ca.keyPair.value, p, draw, now);
    case Keep =>
  }

  lemma LockstepCleaned(d: ChainData, p: Profile, now: Time)
    requires Lockstep(d, p) && LastsUnexpired(d, now)
    ensures Lockstep(CertsCleaned(CACleaned(d, now), now), Profile(Unexpired(p.cas, now), Alive(p.ends, now)))
  {
    hide FindCleanUpDeadlineForCACerts, FindCleanUpDeadlineForCerts;
    var c := CACleaned(d, now);
    CACleanedFilters(d, now);
    CertsCleanedFilters(c, now);
    forall n <- d.issued ensures EndsAre(CertsCleaned(c, now).issued[n].certs, Alive(p.ends, now)) {
      AliveEnds(d.issued[n].certs, p.ends, now);
    }
  }

  /** Lockstep is kept by every update, and the two lists step as the machine does. */
  lemma LockstepKept(o: Options, d: ChainData, p: Profile, draw: Draw, now: Time)
    requires Lockstep(d, p) && (ActionAt(o, d, now) == RotateCerts ==> d.ca.keyPair.Some?)
    requires LastsUnexpired(Rotated(o, d, draw, now), now)
    ensures var ca := NewCA(d.ca.name, draw.ca, o.caRotateInterval, now).cert;
            Lockstep(Updated(o, d, draw, now), ProfileUpdated(o, p, ActionAt(o, d, now), ca, now))
  {
    hide ActionAt, Rotated, LastsUnexpired;
    var ca := NewCA(d.ca.name, draw.ca, o.caRotateInterval, now).cert;
    LockstepRotated(o, d, p, draw, now);
    LockstepCleaned(Rotated(o, d, draw, now), ProfileRotated(o, p, ActionAt(o, d, now), ca, now), now);
  }

  /** The float64 deadlines are exact for these options. */
  predicate ExactDeadlines(o: Options) {
    || (o.caOverlapInterval % 512 == 0 && o.certOverlapInterval % 512 == 0)
    || 2 * (o.caRotateInterval + o.certRotateInterval) + SECOND < FloatDuration.EXACT_LIMIT
  }

  lemma ExactCADeadline(o: Options, d: ChainData, prior: Time)
    requires Workable(o) && ExactDeadlines(o) && Current(o, d, prior) && HasBundle(d)
    ensures FindRotationDeadlineForCA(o, d) == CACert(d).value.NotAfter() - o.caOverlapInterval
  {
    hide FindRotationDeadlineForCA, NextRotationDeadline, HasBundle, CurrentIssue, DecodedCA;
    CurrentCADeadline(o, d, prior);
    DeadlineNear(CACert(d).value, o.caOverlapInterval);
  }

  lemma ExactCertDeadline(o: Options, d: ChainData, p: Profile, prior: Time)
    requires Workable(o) && ExactDeadlines(o) && Current(o, d, prior) && Lockstep(d, p)
    requires d.issued.Keys != {} && p.ends != []
    ensures FindRotationDeadlineForCerts(o, d) == Last(p.ends) * SECOND - o.certOverlapInterval
  {
    hide FindRotationDeadlineForCerts, NextRotationDeadline, CoherentIssue, Sorted, DecodedCA, Measurable;
    CertDeadline(o, d);
    var n :| n in d.issued && FindRotationDeadlineForCerts(o, d)
                              == NextRotationDeadline(Last(d.issued[n].certs), o.certOverlapInterval);
    MeasurableLeaf(o, d, n, prior);
    assert EndsAre(d.issued[n].certs, p.ends);
    var leaf := Last(d.issued[n].certs);
    assert leaf in d.issued[n].certs;
    DeadlineNear(leaf, o.certOverlapInterval);
  }

  lemma ExpiredFirstFails(o: Options, d: ChainData, p: Profile, prior: Time, now: Time)
    requires Current(o, d, prior) && HasBundle(d) && Lockstep(d, p) && p.ends != [] && p.ends[0] * SECOND < now
    ensures !Verifies(d, now)
  {
    hide TLSVerifies, IssuedBy, Sorted, HasBundle;
    var n, b := SomeBundle(d);
    var i := d.issued[n];
    assert CurrentIssue(o, i, d.ca.keyPair.value, prior) && CoherentIssue(i);
    assert b in DecodedIssue(i).caCerts && b in i.caCertPEM;
    CurrentIssueDecodes(o, i, d.ca.keyPair.value, prior);
    assert EndsAre(i.certs, p.ends);
    if TLSVerifies(i.certPEM, i.keyPEM, i.caCertPEM[b], now) {
      TLSNeedsValidLeaf(i.certPEM, i.keyPEM, i.caCertPEM[b], now);
    }
  }

  lemma VerifiesUntilFirstEnds(o: Options, d: ChainData, p: Profile, prior: Time, now: Time)
    requires Current(o, d, prior) && Lockstep(d, p) && p.ends != [] && prior <= now <= p.ends[0] * SECOND
    requires now <= CACert(d).value.NotAfter()
    ensures Verifies(d, now)
  {
    forall n <- d.issued ensures now <= d.issued[n].certs[0].NotAfter() {
      assert EndsAre(d.issued[n].certs, p.ends);
    }
    CurrentVerifies(o, d, prior, now);
  }

  lemma ProfileFacts(o: Options, d: ChainData, p: Profile, prior: Time)
    requires Current(o, d, prior) && HasBundle(d) && Lockstep(d, p)
    ensures p.cas != [] && p.ends != [] && Last(p.cas) == CACert(d).value && d.issued.Keys != {}
  {
    var n :| n in d.issued && |d.issued[n].caCerts| > 0;
    var b := SomeOf(d.issued[n].caCerts.Keys);
    assert d.issued[n].caCerts[b] == p.cas;
    assert EndsAre(d.issued[n].certs, p.ends);
  }

  /** Whole chain and two-list machine decide alike. */
  lemma ActionsAgree(o: Options, d: ChainData, p: Profile, prior: Time, now: Time)
    requires Workable(o) && ExactDeadlines(o)
    requires Inv(o, d, prior) && HasBundle(d) && Lockstep(d, p) && prior <= now
    ensures p.cas != [] && p.ends != [] && ActionAt(o, d, now) == ProfileAction(o, p, now)
  {
    hide FindRotationDeadlineForCA, FindRotationDeadlineForCerts, Verifies, Lockstep;
    ProfileFacts(o, d, p, prior);
    ExactCADeadline(o, d, prior);
    ExactCertDeadline(o, d, p, prior);
    if p.ends[0] * SECOND < now {
      ExpiredFirstFails(o, d, p, prior, now);
    } else if now < Last(p.cas).NotAfter() - o.caOverlapInterval {
      VerifiesUntilFirstEnds(o, d, p, prior, now);
    }
  }
}
