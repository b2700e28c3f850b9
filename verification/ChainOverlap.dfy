/**
 * How much overlaps. Runs that start blank with options in whole seconds: how
 * far apart rotations are, and how long bundles and lists can get.
 */
module ChainOverlap {
  import opened Common
  import opened Triple
  import opened ChainOptions
  import opened ChainModel
  import opened ChainFacts
  import opened ChainInvariant
  import opened ChainPrediction
  import opened ChainLockstep
  import opened ChainRuns
  import FloatDuration

  predicate WholeSeconds(o: Options) {
    && o.caRotateInterval % SECOND == 0
    && o.caOverlapInterval % SECOND == 0
    && o.certRotateInterval % SECOND == 0
    && o.certOverlapInterval % SECOND == 0
  }

  lemma WholeSecondsAreExact(o: Options)
    requires WholeSeconds(o)
    ensures ExactDeadlines(o)
  {
    FloatDuration.SecondsAreMultiples(o.caOverlapInterval / SECOND);
    FloatDuration.SecondsAreMultiples(o.certOverlapInterval / SECOND);
  }

  lemma SecondsShift(t: Time, duration: Time)
    requires duration % SECOND == 0
    ensures Seconds(t + duration) == Seconds(t) + duration / SECOND
    ensures duration / SECOND * SECOND == duration
  {
  }

  // ---- Lists whose members are a gap apart ----

  predicate StartsApart(cas: seq<Certificate>, gap: int) {
    forall i, j :: 0 <= i < j < |cas| ==> cas[i].notBeforeSeconds + gap <= cas[j].notBeforeSeconds
  }

  predicate Apart(ends: seq<int>, gap: int) {
    forall i, j :: 0 <= i < j < |ends| ==> ends[i] + gap <= ends[j]
  }

  lemma {:induction false} AliveMember(ends: seq<int>, now: Time, e: int)
    ensures e in Alive(ends, now) <==> e in ends && now < e * SECOND
  {
    if ends != [] {
      AliveMember(ends[1..], now, e);
      assert e in ends <==> e == ends[0] || e in ends[1..];
    }
  }

  lemma {:induction false} AliveApart(ends: seq<int>, gap: int, now: Time)
    requires Apart(ends, gap)
    ensures Apart(Alive(ends, now), gap)
  {
    if ends != [] {
      var rest := ends[1..];
      assert forall i :: 0 <= i < |rest| ==> rest[i] == ends[i + 1];
      AliveApart(rest, gap, now);
      var a := Alive(rest, now);
      forall j | 0 <= j < |a| ensures ends[0] + gap <= a[j] {
        AliveMember(rest, now, a[j]);
        var i :| 0 <= i < |rest| && rest[i] == a[j];
        assert ends[0] + gap <= ends[i + 1];
      }
    }
  }

  lemma {:induction false} UnexpiredApart(cas: seq<Certificate>, gap: int, now: Time)
    requires StartsApart(cas, gap)
    ensures StartsApart(Unexpired(cas, now), gap)
  {
    if cas != [] {
      var rest := cas[1..];
      assert forall i :: 0 <= i < |rest| ==> rest[i] == cas[i + 1];
      UnexpiredApart(rest, gap, now);
      var a := Unexpired(rest, now);
      forall j | 0 <= j < |a| ensures cas[0].notBeforeSeconds + gap <= a[j].notBeforeSeconds {
        UnexpiredMember(rest, now, a[j]);
        var i :| 0 <= i < |rest| && rest[i] == a[j];
        assert cas[0].notBeforeSeconds + gap <= cas[i + 1].notBeforeSeconds;
      }
    }
  }

  lemma {:induction false} AliveLast(ends: seq<int>, now: Time)
    requires ends != [] && now < Last(ends) * SECOND
    ensures Alive(ends, now) != [] && Last(Alive(ends, now)) == Last(ends)
  {
    if |ends| > 1 {
      AliveLast(ends[1..], now);
    } else {
      assert Alive(ends[1..], now) == [];
    }
  }

  lemma {:induction false} Span(ends: seq<int>, gap: int)
    requires ends != [] && Apart(ends, gap)
    ensures (|ends| - 1) * gap <= Last(ends) - ends[0]
  {
    if |ends| > 1 {
      var front := ends[..|ends| - 1];
      Span(front, gap);
      assert (|ends| - 1) * gap == (|front| - 1) * gap + gap;
      assert Last(front) + gap <= Last(ends);
    }
  }

  lemma {:induction false} StartsSpan(cas: seq<Certificate>, gap: int)
    requires cas != [] && StartsApart(cas, gap)
    ensures (|cas| - 1) * gap <= Last(cas).notBeforeSeconds - cas[0].notBeforeSeconds
  {
    if |cas| > 1 {
      var front := cas[..|cas| - 1];
      StartsSpan(front, gap);
      assert (|cas| - 1) * gap == (|front| - 1) * gap + gap;
      assert Last(front).notBeforeSeconds + gap <= Last(cas).notBeforeSeconds;
    }
  }

  // ---- The invariant of the two lists ----

  predicate CAsSpaced(o: Options, cas: seq<Certificate>, gap: int, now: Time) {
    && cas != []
    && StartsApart(cas, gap)
    && Last(cas).notBeforeSeconds <= Seconds(now)
    && forall c <- cas :: c.notAfterSeconds == c.notBeforeSeconds + o.caRotateInterval / SECOND && now < c.NotAfter()
  }

  predicate EndsSpaced(o: Options, p: Profile, now: Time)
    requires p.cas != []
  {
    && p.ends != []
    && Apart(p.ends, (o.certRotateInterval - o.certOverlapInterval) / SECOND)
    && forall e <- p.ends ::
         && now < e * SECOND
         && Last(p.cas).notBeforeSeconds + o.certRotateInterval / SECOND
            <= e <= Seconds(now) + o.certRotateInterval / SECOND
  }

  predicate Spaced(o: Options, p: Profile, gap: int, now: Time) {
    CAsSpaced(o, p.cas, gap, now) && EndsSpaced(o, p, now)
  }

  ghost function FreshCA(o: Options, d: ChainData, draw: Draw, now: Time): Certificate {
    NewCA(d.ca.name, draw.ca, o.caRotateInterval, now).cert
  }

  lemma CAsSpacedKept(o: Options, cas: seq<Certificate>, gap: int, prior: Time, now: Time)
    requires CAsSpaced(o, cas, gap, prior) && prior <= now < Last(cas).NotAfter()
    ensures CAsSpaced(o, Unexpired(cas, now), gap, now) && Last(Unexpired(cas, now)) == Last(cas)
  {
    UnexpiredApart(cas, gap, now);
    UnexpiredLast(cas, now);
    forall c <- Unexpired(cas, now) ensures c in cas && now < c.NotAfter() {
      UnexpiredMember(cas, now, c);
    }
  }

  lemma CAsSpacedRotated(o: Options, cas: seq<Certificate>, ca: Certificate, gap: int, now: Time)
    requires Workable(o) && WholeSeconds(o) && 0 <= gap && StartsApart(cas, gap)
    requires forall c <- cas :: c.notAfterSeconds == c.notBeforeSeconds + o.caRotateInterval / SECOND
    requires cas != [] ==> Last(cas).notBeforeSeconds + gap <= Seconds(now)
    requires ca.notBeforeSeconds == Seconds(now) && ca.notAfterSeconds == Seconds(now + o.caRotateInterval)
    ensures CAsSpaced(o, Unexpired(cas + [ca], now), gap, now) && Last(Unexpired(cas + [ca], now)) == ca
  {
    SecondsShift(now, o.caRotateInterval);
    assert StartsApart(cas + [ca], gap);
    UnexpiredApart(cas + [ca], gap, now);
    UnexpiredLast(cas + [ca], now);
    forall c <- Unexpired(cas + [ca], now) ensures c in cas + [ca] && now < c.NotAfter() {
      UnexpiredMember(cas + [ca], now, c);
    }
  }

  lemma EndsKept(o: Options, p: Profile, cas: seq<Certificate>, prior: Time, now: Time)
    requires p.cas != [] && cas != [] && Last(cas) == Last(p.cas)
    requires EndsSpaced(o, p, prior) && prior <= now < Last(p.ends) * SECOND
    ensures EndsSpaced(o, Profile(cas, Alive(p.ends, now)), now)
  {
    AliveApart(p.ends, (o.certRotateInterval - o.certOverlapInterval) / SECOND, now);
    AliveLast(p.ends, now);
    forall e <- Alive(p.ends, now) ensures e in p.ends && now < e * SECOND {
      AliveMember(p.ends, now, e);
    }
  }

  lemma ApartAppended(ends: seq<int>, gap: int, end: int)
    requires Apart(ends, gap) && ends != [] && Last(ends) + gap <= end && 0 <= gap
    ensures Apart(ends + [end], gap)
    ensures forall e <- ends :: e <= Last(ends)
  {
    forall e <- ends ensures e <= Last(ends) {
      var i :| 0 <= i < |ends| && ends[i] == e;
    }
  }

  /** A certificate that replaces one in its overlap expires the gap later, or more. */
  lemma EndsLater(o: Options, last: int, now: Time)
    requires Workable(o) && WholeSeconds(o) && last * SECOND - o.certOverlapInterval <= now
    ensures var gap := (o.certRotateInterval - o.certOverlapInterval) / SECOND;
            0 <= gap && last + gap <= Seconds(now + o.certRotateInterval)
    ensures Seconds(now + o.certRotateInterval) == Seconds(now) + o.certRotateInterval / SECOND
    ensures now < Seconds(now + o.certRotateInterval) * SECOND
  {
    SecondsShift(now, o.certRotateInterval);
  }

  lemma EndsAppended(o: Options, p: Profile, cas: seq<Certificate>, prior: Time, now: Time)
    requires Workable(o) && WholeSeconds(o)
    requires p.cas != [] && cas != [] && Last(cas) == Last(p.cas) && Last(cas).notBeforeSeconds <= Seconds(now)
    requires EndsSpaced(o, p, prior) && prior <= now
    requires Last(p.ends) * SECOND - o.certOverlapInterval <= now
    ensures EndsSpaced(o, Profile(cas, Alive(p.ends + [Seconds(now + o.certRotateInterval)], now)), now)
  {
    hide Workable, WholeSeconds, Apart, Alive;
    var gap := (o.certRotateInterval - o.certOverlapInterval) / SECOND;
    var end := Seconds(now + o.certRotateInterval);
    var ends := p.ends + [end];
    EndsLater(o, Last(p.ends), now);
    ApartAppended(p.ends, gap, end);
    AliveApart(ends, gap, now);
    AliveLast(ends, now);
    forall e <- Alive(ends, now) ensures e in ends && now < e * SECOND {
      AliveMember(ends, now, e);
    }
  }

  lemma EndsReset(o: Options, cas: seq<Certificate>, now: Time)
    requires Workable(o) && WholeSeconds(o) && cas != [] && Last(cas).notBeforeSeconds == Seconds(now)
    ensures EndsSpaced(o, Profile(cas, Alive([Seconds(now + o.certRotateInterval)], now)), now)
  {
    var end := Seconds(now + o.certRotateInterval);
    SecondsShift(now, o.certRotateInterval);
    assert [end][1..] == [];
    assert Alive([end], now) == [end];
  }

  /** Every step of the two lists keeps them spaced, if CA rotations keep the gap. */
  lemma SpacedKept(o: Options, p: Profile, ca: Certificate, gap: int, prior: Time, now: Time)
    requires Workable(o) && WholeSeconds(o) && 0 <= gap && Spaced(o, p, gap, prior) && prior <= now
    requires ca.notBeforeSeconds == Seconds(now) && ca.notAfterSeconds == Seconds(now + o.caRotateInterval)
    requires ProfileAction(o, p, now) == RotateAll ==> Last(p.cas).notBeforeSeconds + gap <= Seconds(now)
    ensures Spaced(o, ProfileUpdated(o, p, ProfileAction(o, p, now), ca, now), gap, now)
  {
    hide Unexpired, Alive;
    match ProfileAction(o, p, now)
    case RotateAll =>
      CAsSpacedRotated(o, p.cas, ca, gap, now);
      EndsReset(o, Unexpired(p.cas + [ca], now), now);
    case RotateCerts =>
      CAsSpacedKept(o, p.cas, gap, prior, now);
      EndsAppended(o, p, Unexpired(p.cas, now), prior, now);
    case Keep =>
      CAsSpacedKept(o, p.cas, gap, prior, now);
      EndsKept(o, p, Unexpired(p.cas, now), prior, now);
  }

  // ---- Runs from blank data ----

  /** Options in whole seconds, and updates in order from blank data. */
  predicate BlankRun(o: Options, start: ChainData, ticks: seq<Tick>) {
    && Workable(o) && WholeSeconds(o)
    && Blank(start) && AllHosted(start) && HasBundle(Decoded(start))
    && ticks != [] && Ordered(ticks) && 0 <= ticks[0].now
  }

  ghost function RunProfile(o: Options, start: ChainData, ticks: seq<Tick>): Profile {
    if ticks == [] then Profile([], [])
    else
      var before, now := ticks[..|ticks| - 1], Last(ticks).now;
      var d := Decoded(Run(o, start, before));
      ProfileUpdated(o, RunProfile(o, start, before), ActionAt(o, d, now), FreshCA(o, d, Last(ticks).draw, now), now)
  }

  lemma BlankLockstep(start: ChainData)
    requires Blank(start)
    ensures Lockstep(Decoded(start), Profile([], []))
  {
  }

  lemma StepInLockstep(o: Options, d: ChainData, p: Profile, draw: Draw, prior: Time, now: Time)
    requires Workable(o) && Inv(o, d, prior) && HasBundle(d) && prior <= now && Lockstep(d, p)
    ensures Decoded(d) == d
    ensures Lockstep(Step(o, d, draw, now), ProfileUpdated(o, p, ActionAt(o, d, now), FreshCA(o, d, draw, now), now))
  {
    hide ActionAt, Lockstep, HasBundle;
    CoherentIssues(d);
    if ActionAt(o, d, now) == RotateAll {
      RotatedAllIsCurrent(o, d, draw, now);
    } else {
      RotatedIsCurrent(o, d, draw, prior, now);
    }
    InvLastsUnexpired(o, Rotated(o, d, draw, now), now);
    LockstepKept(o, d, p, draw, now);
  }

  lemma FirstInLockstep(o: Options, start: ChainData, draw: Draw, now: Time)
    requires Workable(o) && Blank(start) && Starts(o, start, now)
    ensures var d := Decoded(start);
            Lockstep(Step(o, start, draw, now),
                     ProfileUpdated(o, Profile([], []), ActionAt(o, d, now), FreshCA(o, d, draw, now), now))
  {
    hide ActionAt, Lockstep, HasBundle;
    var d := Decoded(start);
    DecodedIsCoherent(start);
    BlankLockstep(start);
    RotatedAllIsCurrent(o, d, draw, now);
    InvLastsUnexpired(o, Rotated(o, d, draw, now), now);
    LockstepKept(o, d, Profile([], []), draw, now);
  }

  /**
   * Lockstep: after every update of such a run all bundles of all services hold
   * the same certificates and all issued lists expire alike, and both are what
   * the machine over two lists computes.
   */
  lemma {:induction false} RunInLockstep(o: Options, start: ChainData, ticks: seq<Tick>)
    requires BlankRun(o, start, ticks)
    ensures Lockstep(Run(o, start, ticks), RunProfile(o, start, ticks))
  {
    hide Inv, Lockstep, HasBundle, ActionAt, ProfileUpdated, Step;
    var before := ticks[..|ticks| - 1];
    BlankStarts(o, start, ticks[0].now);
    if before == [] {
      FirstInLockstep(o, start, Last(ticks).draw, Last(ticks).now);
    } else {
      RunInvariant(o, start, before);
      RunInLockstep(o, start, before);
      StepInLockstep(o, Run(o, start, before), RunProfile(o, start, before), Last(ticks).draw,
                     Last(before).now, Last(ticks).now);
    }
  }

  /** Whatever makes a CA rotate, it comes at least min(R - O, Rc) after the validity of the last one began. */
  lemma RotationGap(o: Options, p: Profile, gap: int, prior: Time, now: Time)
    requires Workable(o) && WholeSeconds(o) && Spaced(o, p, gap, prior)
    requires ProfileAction(o, p, now) == RotateAll
    ensures Last(p.cas).notBeforeSeconds
            + Min(o.caRotateInterval - o.caOverlapInterval, o.certRotateInterval) / SECOND <= Seconds(now)
  {
    assert p.ends[0] in p.ends;
    assert Last(p.cas) in p.cas;
  }

  lemma FirstSpaced(o: Options, ca: Certificate, gap: int, now: Time)
    requires Workable(o) && WholeSeconds(o) && 0 <= gap
    requires ca.notBeforeSeconds == Seconds(now) && ca.notAfterSeconds == Seconds(now + o.caRotateInterval)
    ensures Spaced(o, ProfileUpdated(o, Profile([], []), RotateAll, ca, now), gap, now)
  {
    hide Unexpired, Alive;
    CAsSpacedRotated(o, [], ca, gap, now);
    EndsReset(o, Unexpired([] + [ca], now), now);
  }

  lemma RunSpacedStep(o: Options, start: ChainData, ticks: seq<Tick>, gap: int)
    requires BlankRun(o, start, ticks) && 0 <= gap && |ticks| > 1
    requires var before := ticks[..|ticks| - 1];
             var p := RunProfile(o, start, before);
             && Spaced(o, p, gap, Last(before).now)
             && (ProfileAction(o, p, Last(ticks).now) == RotateAll ==>
                   Last(p.cas).notBeforeSeconds + gap <= Seconds(Last(ticks).now))
    ensures Spaced(o, RunProfile(o, start, ticks), gap, Last(ticks).now)
  {
    hide Inv, Lockstep, HasBundle, ActionAt, ProfileUpdated, Step, ProfileAction, Run;
    var before, now := ticks[..|ticks| - 1], Last(ticks).now;
    var d, p := Run(o, start, before), RunProfile(o, start, before);
    BlankStarts(o, start, ticks[0].now);
    RunInvariant(o, start, before);
    RunInLockstep(o, start, before);
    WholeSecondsAreExact(o);
    ActionsAgree(o, d, p, Last(before).now, now);
    StepInLockstep(o, d, p, Last(ticks).draw, Last(before).now, now);
    SpacedKept(o, p, FreshCA(o, d, Last(ticks).draw, now), gap, Last(before).now, now);
  }

  ghost function LeastGap(o: Options): int {
    Min(o.caRotateInterval - o.caOverlapInterval, o.certRotateInterval) / SECOND
  }

  lemma {:induction false} RunSpaced(o: Options, start: ChainData, ticks: seq<Tick>)
    requires BlankRun(o, start, ticks)
    ensures Spaced(o, RunProfile(o, start, ticks), LeastGap(o), Last(ticks).now)
  {
    hide Inv, Lockstep, HasBundle, ProfileUpdated, Step, ProfileAction, Spaced, ActionAt;
    var before := ticks[..|ticks| - 1];
    BlankStarts(o, start, ticks[0].now);
    if before == [] {
      FirstSpaced(o, FreshCA(o, Decoded(start), Last(ticks).draw, Last(ticks).now), LeastGap(o), Last(ticks).now);
    } else {
      RunSpaced(o, start, before);
      var p := RunProfile(o, start, before);
      SpacedNotEmpty(o, p, LeastGap(o), Last(before).now);
      if ProfileAction(o, p, Last(ticks).now) == RotateAll {
        RotationGap(o, p, LeastGap(o), Last(before).now, Last(ticks).now);
      }
      RunSpacedStep(o, start, ticks, LeastGap(o));
    }
  }

  lemma SpacedNotEmpty(o: Options, p: Profile, gap: int, now: Time)
    requires Spaced(o, p, gap, now)
    ensures p.cas != [] && p.ends != []
  {
  }

  lemma LeastGapInSeconds(o: Options)
    requires WholeSeconds(o)
    ensures LeastGap(o) * SECOND == Min(o.caRotateInterval - o.caOverlapInterval, o.certRotateInterval)
  {
  }

  lemma Scaled(count: int, gap: int, span: int)
    requires count * gap <= span
    ensures count * (gap * SECOND) <= span * SECOND
  {
    assert count * (gap * SECOND) == (count * gap) * SECOND;
  }

  lemma CAsBounded(o: Options, cas: seq<Certificate>, gap: int, now: Time)
    requires WholeSeconds(o) && CAsSpaced(o, cas, gap, now)
    ensures (|cas| - 1) * (gap * SECOND) < o.caRotateInterval
  {
    StartsSpan(cas, gap);
    assert cas[0] in cas && now < cas[0].NotAfter();
    Scaled(|cas| - 1, gap, Last(cas).notBeforeSeconds - cas[0].notBeforeSeconds);
  }

  lemma EndsBounded(o: Options, p: Profile, now: Time)
    requires WholeSeconds(o) && p.cas != [] && EndsSpaced(o, p, now)
    ensures (|p.ends| - 1) * (o.certRotateInterval - o.certOverlapInterval) < o.certRotateInterval
  {
    var gap := (o.certRotateInterval - o.certOverlapInterval) / SECOND;
    Span(p.ends, gap);
    assert Last(p.ends) in p.ends && p.ends[0] in p.ends;
    Scaled(|p.ends| - 1, gap, Last(p.ends) - p.ends[0]);
    assert gap * SECOND == o.certRotateInterval - o.certOverlapInterval;
  }

  /**
   * Bounded overlap, however late the updates of the run come: n certificates
   * in a bundle satisfy (n - 1) * min(R - O, Rc) < R, and m issued certificates
   * of a service satisfy (m - 1) * (Rc - Oc) < Rc.
   */
  lemma BoundedOverlap(o: Options, start: ChainData, ticks: seq<Tick>, n: string, b: string)
    requires BlankRun(o, start, ticks)
    requires var d := Run(o, start, ticks); n in d.issued && b in d.issued[n].caCerts
    ensures var i := Run(o, start, ticks).issued[n];
            && (|i.caCerts[b]| - 1) * Min(o.caRotateInterval - o.caOverlapInterval, o.certRotateInterval)
               < o.caRotateInterval
            && (|i.certs| - 1) * (o.certRotateInterval - o.certOverlapInterval) < o.certRotateInterval
  {
    hide Run, RunProfile, HasBundle, Min, CAsSpaced, EndsSpaced;
    var d, p := Run(o, start, ticks), RunProfile(o, start, ticks);
    RunInLockstep(o, start, ticks);
    RunSpaced(o, start, ticks);
    SpacedNotEmpty(o, p, LeastGap(o), Last(ticks).now);
    CAsBounded(o, p.cas, LeastGap(o), Last(ticks).now);
    EndsBounded(o, p, Last(ticks).now);
    LeastGapInSeconds(o);
    assert EndsAre(d.issued[n].certs, p.ends) && d.issued[n].caCerts[b] == p.cas;
  }

  lemma RunDecisions(o: Options, start: ChainData, ticks: seq<Tick>, k: nat)
    requires BlankRun(o, start, ticks) && 1 <= k < |ticks|
    ensures var d, p := Run(o, start, ticks[..k]), RunProfile(o, start, ticks[..k]);
            && p.cas != [] && p.ends != []
            && CACert(d) == Some(Last(p.cas))
            && Spaced(o, p, LeastGap(o), ticks[k - 1].now)
            && ActionAt(o, d, ticks[k].now) == ProfileAction(o, p, ticks[k].now)
  {
    hide Inv, Lockstep, HasBundle, ActionAt, Spaced, ProfileAction, Run, RunProfile;
    var before := ticks[..k];
    assert Last(before) == ticks[k - 1] && before[0] == ticks[0];
    OrderedPrefix(ticks, k);
    BlankStarts(o, start, ticks[0].now);
    RunInvariant(o, start, before);
    RunInLockstep(o, start, before);
    RunSpaced(o, start, before);
    WholeSecondsAreExact(o);
    ActionsAgree(o, Run(o, start, before), RunProfile(o, start, before), ticks[k - 1].now, ticks[k].now);
    InvIsCurrent(o, Run(o, start, before), ticks[k - 1].now);
    ProfileFacts(o, Run(o, start, before), RunProfile(o, start, before), ticks[k - 1].now);
  }

  lemma InvIsCurrent(o: Options, d: ChainData, now: Time)
    requires Inv(o, d, now)
    ensures Current(o, d, now) && CACert(d).Some?
  {
  }

  /**
   * No CA of a run is replaced earlier than min(R - O, Rc) after the start of
   * its validity, which is when it was issued less the fraction of a second,
   * however late the updates.
   */
  lemma RotationsApart(o: Options, start: ChainData, ticks: seq<Tick>, k: nat)
    requires BlankRun(o, start, ticks) && 1 <= k < |ticks|
    requires ActionAt(o, Run(o, start, ticks[..k]), ticks[k].now) == RotateAll
    ensures var ca := CACert(Run(o, start, ticks[..k]));
            ca.Some? && Min(o.caRotateInterval - o.caOverlapInterval, o.certRotateInterval)
                        <= ticks[k].now - ca.value.NotBefore()
  {
    hide Spaced, ActionAt, ProfileAction, Run, RunProfile, Min;
    RunDecisions(o, start, ticks, k);
    RotationGap(o, RunProfile(o, start, ticks[..k]), LeastGap(o), ticks[k - 1].now, ticks[k].now);
    LeastGapInSeconds(o);
  }

  // ---- Punctual runs ----

  /** Every update comes no later than the previous one asked for. */
  ghost predicate Punctual(o: Options, start: ChainData, ticks: seq<Tick>) {
    forall k :: 1 <= k < |ticks| ==> ticks[k].now <= Returned(o, start, ticks, k - 1)
  }

  lemma ReturnedBounds(o: Options, d: ChainData)
    ensures NextDeadline(o, d) <= FindRotationDeadlineForCA(o, d)
    ensures NextDeadline(o, d) <= FindCleanUpDeadlineForCACerts(d)
    ensures NextDeadline(o, d) <= FindCleanUpDeadlineForCerts(d)
  {
    hide FindRotationDeadlineForCA, FindRotationDeadlineForCerts, FindCleanUpDeadlineForCACerts, FindCleanUpDeadlineForCerts;
  }

  lemma PunctualStep(o: Options, start: ChainData, ticks: seq<Tick>, k: nat)
    requires Workable(o) && ExactDeadlines(o) && Ordered(ticks) && 1 <= k < |ticks|
    requires Starts(o, start, ticks[0].now) && ticks[k].now <= Returned(o, start, ticks, k - 1)
    ensures var d := Run(o, start, ticks[..k]);
            && Verifies(d, ticks[k].now)
            && CACert(d).Some?
            && (ActionAt(o, d, ticks[k].now) == RotateAll ==>
                  ticks[k].now == CACert(d).value.NotAfter() - o.caOverlapInterval)
  {
    hide Inv, HasBundle, Verifies, Run, Returned, Starts, FindRotationDeadlineForCA, FindRotationDeadlineForCerts,
      FindCleanUpDeadlineForCACerts, FindCleanUpDeadlineForCerts, NextDeadline;
    var d := Run(o, start, ticks[..k]);
    OrderedPrefix(ticks, k);
    assert Last(ticks[..k]) == ticks[k - 1];
    RunInvariant(o, start, ticks[..k]);
    ReturnedIsNextDeadline(o, start, ticks, k - 1);
    ReturnedBounds(o, d);
    VerifiesUntilDeadline(o, d, ticks[k - 1].now, ticks[k].now);
    InvIsCurrent(o, d, ticks[k - 1].now);
    ExactCADeadline(o, d, ticks[k - 1].now);
  }

  /**
   * Punctual runs never fail verification after the first update, and their CA
   * rotates exactly R - O after it was issued.
   */
  lemma PunctualRuns(o: Options, start: ChainData, ticks: seq<Tick>, k: nat)
    requires BlankRun(o, start, ticks) && Punctual(o, start, ticks) && 1 <= k < |ticks|
    ensures var d := Run(o, start, ticks[..k]);
            && Verifies(d, ticks[k].now)
            && CACert(d).Some?
            && (ActionAt(o, d, ticks[k].now) == RotateAll ==>
                  ticks[k].now == CACert(d).value.NotBefore() + o.caRotateInterval - o.caOverlapInterval)
  {
    hide Verifies, Run, RunProfile, Returned, ActionAt, ProfileAction, Starts, HasBundle;
    WholeSecondsAreExact(o);
    BlankStarts(o, start, ticks[0].now);
    PunctualStep(o, start, ticks, k);
    RunDecisions(o, start, ticks, k);
    var p := RunProfile(o, start, ticks[..k]);
    assert Last(p.cas) in p.cas;
  }

  lemma {:induction false} PunctualSpaced(o: Options, start: ChainData, ticks: seq<Tick>)
    requires BlankRun(o, start, ticks) && Punctual(o, start, ticks)
    ensures Spaced(o, RunProfile(o, start, ticks),
                   (o.caRotateInterval - o.caOverlapInterval) / SECOND, Last(ticks).now)
  {
    hide Inv, Lockstep, HasBundle, ProfileUpdated, Step, ProfileAction, Spaced, ActionAt, Run, Returned, Verifies;
    var gap := (o.caRotateInterval - o.caOverlapInterval) / SECOND;
    var before, now := ticks[..|ticks| - 1], Last(ticks).now;
    BlankStarts(o, start, ticks[0].now);
    if before == [] {
      RunEmpty(o, start, ticks);
      FirstSpaced(o, FreshCA(o, Decoded(start), Last(ticks).draw, now), gap, now);
    } else {
      PunctualPrefix(o, start, ticks);
      PunctualSpaced(o, start, before);
      var p := RunProfile(o, start, before);
      SpacedNotEmpty(o, p, gap, Last(before).now);
      RunDecisions(o, start, ticks, |before|);
      PunctualRuns(o, start, ticks, |before|);
      RunSpacedStep(o, start, ticks, gap);
    }
  }

  lemma PunctualPrefix(o: Options, start: ChainData, ticks: seq<Tick>)
    requires Punctual(o, start, ticks) && ticks != []
    ensures Punctual(o, start, ticks[..|ticks| - 1])
  {
    hide StepAt, Run;
    var before := ticks[..|ticks| - 1];
    forall k | 1 <= k < |before| ensures before[k].now <= Returned(o, start, before, k - 1) {
      assert before[..k - 1] == ticks[..k - 1];
      assert ticks[k].now <= Returned(o, start, ticks, k - 1);
    }
  }

  /** With an overlap of at most half the rotation interval they never hold more than two CA certificates. */
  lemma PunctualOverlap(o: Options, start: ChainData, ticks: seq<Tick>, n: string, b: string)
    requires BlankRun(o, start, ticks) && Punctual(o, start, ticks)
    requires 2 * o.caOverlapInterval <= o.caRotateInterval
    requires var d := Run(o, start, ticks); n in d.issued && b in d.issued[n].caCerts
    ensures |Run(o, start, ticks).issued[n].caCerts[b]| <= 2
  {
    hide Run, RunProfile, HasBundle, CAsSpaced, EndsSpaced, Punctual;
    var d, p := Run(o, start, ticks), RunProfile(o, start, ticks);
    var gap := (o.caRotateInterval - o.caOverlapInterval) / SECOND;
    RunInLockstep(o, start, ticks);
    PunctualSpaced(o, start, ticks);
    CAsBounded(o, p.cas, gap, Last(ticks).now);
    LessThanTwice(|p.cas| - 1, gap * SECOND, o.caRotateInterval);
    assert d.issued[n].caCerts[b] == p.cas;
  }

  lemma LessThanTwice(count: int, gap: int, total: int)
    requires count * gap < total <= 2 * gap && 0 <= gap
    ensures count < 2
  {
    assert 2 <= count ==> 2 * gap <= count * gap;
  }
}
