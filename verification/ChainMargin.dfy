/**
 * For which options what an update issues never falls due at once. A rotation is
 * due an overlap before the expiration; the certificate drops up to a second of
 * the interval, and float64 rounds the overlap and the difference.
 */
module ChainMargin {
  import opened Common
  import opened Triple
  import opened ChainOptions
  import opened ChainModel
  import opened ChainFacts
  import opened ChainInvariant
  import opened ChainRepair
  import opened FloatDuration

  /** When a certificate falls due that is issued now, and valid from now, for some interval. */
  function DueAt(interval: Time, overlap: Time, now: Time): Time {
    Seconds(now) * SECOND + Subtract((Seconds(now + interval) - Seconds(now)) * SECOND, overlap)
  }

  /** The first moment from which the interval ends just before a second does. */
  function WorstMoment(interval: Time): Time {
    (SECOND - 1 - interval) % SECOND
  }

  lemma WorstMomentEnds(interval: Time)
    ensures 0 <= WorstMoment(interval) < SECOND
    ensures Seconds(WorstMoment(interval) + interval) * SECOND == WorstMoment(interval) + interval - (SECOND - 1)
  {
    var t := WorstMoment(interval) + interval;
    assert (SECOND - 1 - interval) == SECOND * ((SECOND - 1 - interval) / SECOND) + WorstMoment(interval);
    assert t - (SECOND - 1) == SECOND * -((SECOND - 1 - interval) / SECOND);
  }

  lemma WholeValidity(seconds: int, overlap: Time)
    requires Abs(seconds * SECOND) < DURATION_LIMIT
    ensures Subtract(seconds * SECOND, overlap) == Float64(seconds * SECOND - Float64(overlap))
  {
    hide Float64;
    assert seconds * SECOND == 512 * (1953125 * seconds);
    Float64Exact(seconds * SECOND);
  }

  lemma RoundedOverlap(overlap: Time)
    requires 0 <= overlap < DURATION_LIMIT
    ensures 0 <= Float64(overlap) <= overlap + 256
  {
    hide Float64;
    Float64Near(overlap, 0);
  }

  lemma Enough(interval: Time, overlap: Time, now: Time)
    requires 0 <= overlap < interval && SECOND <= interval < DURATION_LIMIT - 2 * SECOND && 0 <= now
    requires SECOND <= interval - Float64(overlap)
    ensures now < DueAt(interval, overlap, now)
  {
    hide Float64;
    var v := (Seconds(now + interval) - Seconds(now)) * SECOND;
    RoundedOverlap(overlap);
    WholeValidity(Seconds(now + interval) - Seconds(now), overlap);
    Float64Near(v - Float64(overlap), now - Seconds(now) * SECOND + 1);
  }

  lemma NotEnough(interval: Time, overlap: Time)
    requires 0 <= overlap < interval && SECOND <= interval < DURATION_LIMIT - 2 * SECOND
    requires interval - Float64(overlap) < SECOND
    ensures DueAt(interval, overlap, WorstMoment(interval)) <= WorstMoment(interval)
  {
    hide Float64, WorstMoment;
    var now := WorstMoment(interval);
    WorstMomentEnds(interval);
    RoundedOverlap(overlap);
    WholeValidity(Seconds(now + interval) - Seconds(now), overlap);
    Float64Near(Seconds(now + interval) * SECOND - Float64(overlap), now);
  }

  /** A full rotation leaves at least a second between each rounded overlap and its interval, */
  predicate RotatesAhead(o: Options) {
    && SECOND <= o.caRotateInterval - Float64(o.caOverlapInterval)
    && SECOND <= o.certRotateInterval - Float64(o.certOverlapInterval)
  }

  lemma FreshDueAt(o: Options, now: Time)
    ensures CADueAt(o, now) == DueAt(o.caRotateInterval, o.caOverlapInterval, now)
    ensures LeafDueAt(o, Seconds(now), now) == DueAt(o.certRotateInterval, o.certOverlapInterval, now)
  {
    hide Subtract;
  }

  lemma EnoughExactly(interval: Time, overlap: Time)
    requires 0 <= overlap < interval && SECOND <= interval < DURATION_LIMIT - 2 * SECOND
    ensures (forall now :: 0 <= now ==> now < DueAt(interval, overlap, now)) <==> SECOND <= interval - Float64(overlap)
  {
    hide Float64, DueAt, WorstMoment;
    if SECOND <= interval - Float64(overlap) {
      forall now | 0 <= now ensures now < DueAt(interval, overlap, now) {
        Enough(interval, overlap, now);
      }
    } else {
      WorstMomentEnds(interval);
      NotEnough(interval, overlap);
      assert !(WorstMoment(interval) < DueAt(interval, overlap, WorstMoment(interval)));
    }
  }

  /** and that is exactly what it takes for it to make progress at any time. */
  lemma FullRotationMargin(o: Options)
    requires Workable(o)
    ensures (forall now :: 0 <= now ==> now < CADueAt(o, now) && now < LeafDueAt(o, Seconds(now), now)) <==> RotatesAhead(o)
  {
    hide Float64, DueAt, CADueAt, LeafDueAt;
    forall now ensures CADueAt(o, now) == DueAt(o.caRotateInterval, o.caOverlapInterval, now)
               ensures LeafDueAt(o, Seconds(now), now) == DueAt(o.certRotateInterval, o.certOverlapInterval, now) {
      FreshDueAt(o, now);
    }
    EnoughExactly(o.caRotateInterval, o.caOverlapInterval);
    EnoughExactly(o.certRotateInterval, o.certOverlapInterval);
  }

  // ---- Under a CA that is older ----

  /** The CA is valid already, and not so old that a duration could not hold the validity of a leaf. */
  predicate OldEnough(o: Options, start: int, now: Time) {
    start * SECOND <= now && (Seconds(now + o.certRotateInterval) - start) * SECOND < DURATION_LIMIT
  }

  /** Besides the second, whatever float64 takes off for a leaf of any length. */
  ghost predicate LeavesAhead(o: Options) {
    var f := Float64(o.certOverlapInterval);
    forall u | WideSpacing(u) :: SECOND + LossAt(u, f) <= o.certRotateInterval - f
  }

  lemma LeafEnough(o: Options, start: int, now: Time)
    requires Workable(o) && LeavesAhead(o) && 0 <= now && OldEnough(o, start, now)
    ensures now < LeafDueAt(o, start, now)
  {
    hide Float64, LossAt, Spacing;
    var f := Float64(o.certOverlapInterval);
    var seconds := Seconds(now + o.certRotateInterval) - start;
    RoundedOverlap(o.certOverlapInterval);
    assert WideSpacing(2);
    WholeValidity(seconds, o.certOverlapInterval);
    var x := seconds * SECOND - f;
    assert x == 512 * (1953125 * seconds) - f;
    if x < EXACT_LIMIT {
      Float64Exact(x);
    } else {
      RoundingLoss(1953125 * seconds, f);
    }
  }

  /** A leaf under a CA old enough for the spacing u, or one second older. */
  function AgeFor(u: nat, later: bool): nat {
    EXACT_LIMIT / 2 * u / SECOND + if later then 2 else 1
  }

  /** At an even multiple of 512, a tie goes down. */
  lemma SomeAgeTies(x: int)
    ensures x / 512 % 2 == 0 || (x + SECOND) / 512 % 2 == 0
  {
    assert SECOND == 512 * 1953125;
    RemainderShifts(x, 512, 1953125);
    assert x == 512 * (x / 512) + x % 512;
    DivisionIsUnique(x + SECOND, 512, x / 512 + 1953125, x % 512);
  }

  /** Seen from some age of the CA on, rounding takes off all that is left. */
  lemma AgeTakesLoss(f: Time, u: nat, end: int, rest: Time) returns (age: nat)
    requires WideSpacing(u) && 1 <= rest < SECOND + 512 && 0 <= f && 0 < LossAt(u, f)
    requires rest == end * SECOND - f && f + rest < EXACT_LIMIT * 256 - 3 * SECOND
    ensures Float64((end + age) * SECOND - f) == rest + age * SECOND - LossAt(u, f)
    ensures age == AgeFor(u, false) || age == AgeFor(u, true)
  {
    hide Float64, LossAt, Spacing;
    var x := rest + AgeFor(u, false) * SECOND;
    SomeAgeTies(x);
    age := AgeFor(u, x / 512 % 2 != 0);
    x := rest + age * SECOND;
    AgeBounds(u);
    assert x == 512 * (1953125 * (end + age)) - f;
    SpacingIs(x, u);
    RoundingLoss(1953125 * (end + age), f);
  }

  lemma AgeBounds(u: nat)
    requires WideSpacing(u)
    ensures EXACT_LIMIT / 2 * u < AgeFor(u, false) * SECOND <= EXACT_LIMIT / 2 * u + SECOND
    ensures AgeFor(u, true) == AgeFor(u, false) + 1
  {
  }

  lemma DueFrom(o: Options, start: int, now: Time)
    requires Abs((Seconds(now + o.certRotateInterval) - start) * SECOND) < DURATION_LIMIT
    ensures LeafDueAt(o, start, now)
            == start * SECOND + Float64((Seconds(now + o.certRotateInterval) - start) * SECOND - Float64(o.certOverlapInterval))
  {
    hide Float64;
    WholeValidity(Seconds(now + o.certRotateInterval) - start, o.certOverlapInterval);
  }

  lemma LeafNotEnough(o: Options, u: nat) returns (start: int, now: Time)
    requires Workable(o) && WideSpacing(u)
    requires o.certRotateInterval - Float64(o.certOverlapInterval) < SECOND + LossAt(u, Float64(o.certOverlapInterval))
    ensures 0 <= now && OldEnough(o, start, now) && LeafDueAt(o, start, now) <= now
  {
    hide Float64, LossAt, Spacing, WorstMoment, AgeFor, LeafDueAt;
    var f := Float64(o.certOverlapInterval);
    var gap := o.certRotateInterval - f - (SECOND - 1);
    now := WorstMoment(o.certRotateInterval);
    WorstMomentEnds(o.certRotateInterval);
    RoundedOverlap(o.certOverlapInterval);
    LossIsSmall(u, f);
    var end := Seconds(now + o.certRotateInterval);
    if gap <= 0 {
      start := 0;
      DueFrom(o, start, now);
      Float64Near(end * SECOND - f, now);
    } else {
      var age := AgeTakesLoss(f, u, end, now + gap);
      AgeBounds(u);
      start := -(age as int);
      DueFrom(o, start, now);
    }
  }

  lemma LossIsSmall(u: nat, f: int)
    requires WideSpacing(u)
    ensures 0 <= LossAt(u, f) <= 256
  {
  }

  /** That is exactly what it takes for new leaves to be ahead at any time and under a CA of any age. */
  lemma LeafMargin(o: Options)
    requires Workable(o)
    ensures (forall now, start :: 0 <= now && OldEnough(o, start, now) ==> now < LeafDueAt(o, start, now)) <==> LeavesAhead(o)
  {
    hide Float64, LossAt, Subtract, LeafDueAt, OldEnough;
    if LeavesAhead(o) {
      forall now, start | 0 <= now && OldEnough(o, start, now) ensures now < LeafDueAt(o, start, now) {
        LeafEnough(o, start, now);
      }
    } else {
      var u :| WideSpacing(u) && o.certRotateInterval - Float64(o.certOverlapInterval) < SECOND + LossAt(u, Float64(o.certOverlapInterval));
      var start, now := LeafNotEnough(o, u);
      assert !(now < LeafDueAt(o, start, now));
    }
  }

  /** With such options every update of any data with a bundle makes progress. */
  lemma OptionsProgress(o: Options, d: ChainData, draw: Draw, now: Time)
    requires Workable(o) && RotatesAhead(o) && LeavesAhead(o)
    requires Coherent(d) && MeasurableLists(o, d) && HasBundle(d) && 0 <= now
    requires CACert(d).Some? ==> OldEnough(o, CACert(d).value.notBeforeSeconds, now)
    ensures now < UpdateAt(o, d, draw, now)
  {
    hide FindRotationDeadlineForCA, FindRotationDeadlineForCerts, Verifies, UpdateAt, HasBundle, MeasurableLists, CADueAt, LeafDueAt,
      RotatesAhead, LeavesAhead, Workable, Coherent, OldEnough;
    Progress(o, d, draw, now);
    FullRotationMargin(o);
    if ActionAt(o, d, now) == RotateCerts {
      CADeadline(o, d);
      VerifiedHasCA(d, now);
      LeafEnough(o, CACert(d).value.notBeforeSeconds, now);
    }
  }

  /** Overlaps that float64 holds to a multiple of 512 need the plain second only. */
  lemma ExactOptionsAreAhead(o: Options)
    requires Workable(o) && o.caOverlapInterval % 512 == 0 && o.certOverlapInterval % 512 == 0
    ensures RotatesAhead(o) && LeavesAhead(o) <==>
              SECOND <= o.caRotateInterval - o.caOverlapInterval && SECOND <= o.certRotateInterval - o.certOverlapInterval
  {
    hide Float64, LossAt;
    Float64Exact(o.caOverlapInterval);
    Float64Exact(o.certOverlapInterval);
    var f := o.certOverlapInterval;
    forall u | WideSpacing(u) ensures LossAt(u, f) == 0 {
      NoLossOnGrid(u, f);
    }
    assert WideSpacing(2);
  }

  lemma NoLossOnGrid(u: nat, f: int)
    requires WideSpacing(u) && f % 512 == 0
    ensures LossAt(u, f) == 0
  {
    var q := f / 512;
    assert f == 512 * q;
    RemainderOf(-q, 0, u);
  }

  /** Data whose CA is always due make progress at all times exactly under such options. */
  lemma ProgressMargin(o: Options, d: ChainData, draw: Draw)
    requires Workable(o) && Coherent(d) && MeasurableLists(o, d) && HasBundle(d) && HasEmptyBundle(d)
    ensures (forall now :: 0 <= now ==> now < UpdateAt(o, d, draw, now)) <==> RotatesAhead(o)
  {
    hide FindRotationDeadlineForCA, Verifies, UpdateAt, HasBundle, HasEmptyBundle, MeasurableLists, CADueAt, LeafDueAt,
      RotatesAhead, Workable, Coherent;
    FullRotationMargin(o);
    CADeadline(o, d);
    forall now | 0 <= now
      ensures now < UpdateAt(o, d, draw, now) <==> now < CADueAt(o, now) && now < LeafDueAt(o, Seconds(now), now)
    {
      Progress(o, d, draw, now);
    }
  }

  /** An overlap of 2^53 + 3 ns is one that float64 rounds up. */
  const TIGHT_OPTIONS := Options(EXACT_LIMIT + 3 + SECOND, EXACT_LIMIT + 3, EXACT_LIMIT + 3 + SECOND, EXACT_LIMIT + 3)

  /** A second between overlap and interval is not always enough: here some full rotation makes no progress. */
  lemma ASecondMayNotDo(d: ChainData, draw: Draw)
    requires Coherent(d) && MeasurableLists(TIGHT_OPTIONS, d) && HasBundle(d) && HasEmptyBundle(d)
    ensures Workable(TIGHT_OPTIONS)
    ensures exists now :: 0 <= now && UpdateAt(TIGHT_OPTIONS, d, draw, now) <= now
  {
    hide UpdateAt, HasBundle, HasEmptyBundle, MeasurableLists, Coherent;
    assert Spacing(EXACT_LIMIT / 2 + 1) == 1;
    assert Float64(EXACT_LIMIT + 3) == EXACT_LIMIT + 4;
    ProgressMargin(TIGHT_OPTIONS, d, draw);
  }
}
