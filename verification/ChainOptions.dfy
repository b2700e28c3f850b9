/** Rotation options (pkg/certificate/chain/options.go). */
module ChainOptions {
  import opened Triple

  const ONE_YEAR_DURATION: Time := 365 * 24 * 3600 * SECOND

  datatype Options = Options(
    caRotateInterval: Time,
    caOverlapInterval: Time,
    certRotateInterval: Time,
    certOverlapInterval: Time)

  /** Go's integer division by three, which truncates towards zero. */
  function Third(t: Time): Time {
    if t >= 0 then t / 3 else -(-t / 3)
  }

  function OrDefault(t: Time, default: Time): Time {
    if t == 0 then default else t
  }

  function WithDefaults(o: Options): Options {
    var caRotate := OrDefault(o.caRotateInterval, ONE_YEAR_DURATION);
    var certRotate := OrDefault(o.certRotateInterval, caRotate);
    Options(
      caRotate,
      OrDefault(o.caOverlapInterval, Third(caRotate)),
      certRotate,
      OrDefault(o.certOverlapInterval, Third(certRotate)))
  }

  predicate Validates(o: Options) {
    && o.caOverlapInterval < o.caRotateInterval
    && o.certRotateInterval <= o.caRotateInterval
    && o.certOverlapInterval < o.certRotateInterval
  }

  predicate Accepted(o: Options) {
    Validates(WithDefaults(o))
  }

  /** What the rotation needs of its options: 0 <= O < R and 0 <= Oc < Rc <= R. */
  predicate InRange(o: Options) {
    && 0 <= o.caOverlapInterval < o.caRotateInterval
    && 0 <= o.certOverlapInterval < o.certRotateInterval <= o.caRotateInterval
  }

  /** The options variable that SetDefaultsAndValidate overwrites through its receiver. */
  class OptionsVar {
    var value: Options

    constructor (value: Options)
      ensures this.value == value
    {
      this.value := value;
    }

    method SetDefaultsAndValidate() returns (ok: bool)
      modifies this
      ensures ok <==> Accepted(old(value))
      ensures value == if ok then WithDefaults(old(value)) else old(value)
    {
      var withDefaults := value;
      if value.caRotateInterval == 0 {
        withDefaults := withDefaults.(caRotateInterval := ONE_YEAR_DURATION);
      }
      if value.caOverlapInterval == 0 {
        withDefaults := withDefaults.(caOverlapInterval := Third(withDefaults.caRotateInterval));
      }
      if value.certRotateInterval == 0 {
        withDefaults := withDefaults.(certRotateInterval := withDefaults.caRotateInterval);
      }
      if value.certOverlapInterval == 0 {
        withDefaults := withDefaults.(certOverlapInterval := Third(withDefaults.certRotateInterval));
      }
      if !Validates(withDefaults) {
        return false;
      }
      value := withDefaults;
      ok := true;
    }
  }

  /**
   * What is given stays, and what is not comes to a year, to the interval of
   * the CA, and to a third of its own interval, rounded towards zero.
   */
  lemma DefaultsAre(o: Options)
    ensures var w := WithDefaults(o);
            && w.caRotateInterval == (if o.caRotateInterval != 0 then o.caRotateInterval else 31_536_000 * SECOND)
            && w.certRotateInterval == (if o.certRotateInterval != 0 then o.certRotateInterval else w.caRotateInterval)
            && (o.caOverlapInterval != 0 ==> w.caOverlapInterval == o.caOverlapInterval)
            && (o.certOverlapInterval != 0 ==> w.certOverlapInterval == o.certOverlapInterval)
            && (o.caOverlapInterval == 0 ==> IsThird(w.caOverlapInterval, w.caRotateInterval))
            && (o.certOverlapInterval == 0 ==> IsThird(w.certOverlapInterval, w.certRotateInterval))
  {
  }

  predicate IsThird(third: Time, whole: Time) {
    if whole >= 0 then 3 * third <= whole < 3 * third + 3 else 3 * third - 3 < whole <= 3 * third
  }

  /**
   * Options are accepted exactly if the CA interval exceeds its overlap, where
   * one is given, and so does the interval of the certificates, which is at most
   * that of the CA. Overlaps left to their defaults never cause a refusal of
   * positive intervals, and always of negative ones.
   */
  lemma AcceptedMeans(o: Options)
    ensures var r := if o.caRotateInterval != 0 then o.caRotateInterval else 31_536_000 * SECOND;
            var c := if o.certRotateInterval != 0 then o.certRotateInterval else r;
            Accepted(o) <==>
              && c <= r
              && (if o.caOverlapInterval != 0 then o.caOverlapInterval < r else 0 < r)
              && (if o.certOverlapInterval != 0 then o.certOverlapInterval < c else 0 < c)
  {
    DefaultsAre(o);
  }

  /** Setting the defaults again changes nothing, so validated options stay validated. */
  lemma DefaultsAreIdempotent(o: Options)
    ensures WithDefaults(WithDefaults(o)) == WithDefaults(o)
    ensures Accepted(WithDefaults(o)) <==> Accepted(o)
  {
    assert OrDefault(WithDefaults(o).caRotateInterval, ONE_YEAR_DURATION) == WithDefaults(o).caRotateInterval;
  }

  /**
   * Validation alone does not put accepted options in range: a negative overlap
   * passes. They are in range exactly when neither overlap was given negative.
   */
  lemma AcceptedInRange(o: Options)
    requires Accepted(o)
    ensures InRange(WithDefaults(o)) <==> 0 <= o.caOverlapInterval && 0 <= o.certOverlapInterval
  {
    var w := WithDefaults(o);
    if 0 <= o.caOverlapInterval && w.caRotateInterval <= 0 {
      assert Third(w.caRotateInterval) >= w.caRotateInterval;
    }
    if 0 <= o.certOverlapInterval && w.certRotateInterval <= 0 {
      assert Third(w.certRotateInterval) >= w.certRotateInterval;
    }
  }

  lemma NegativeOverlapIsAccepted()
    ensures exists o :: Accepted(o) && !InRange(WithDefaults(o))
  {
    var o := Options(ONE_YEAR_DURATION, -1, ONE_YEAR_DURATION, 0);
    assert Accepted(o) && !InRange(WithDefaults(o));
  }
}
