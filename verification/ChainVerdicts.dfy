/**
 * Verification ranges over maps, in an order that differs from call to call. It
 * stops at the first bundle that fails, so where some bundle makes it panic and
 * another is rejected, the order decides.
 */
module ChainVerdicts {
  import opened Common
  import opened Triple
  import opened ChainOptions
  import opened ChainModel
  import opened ChainFacts

  /** One issue, with the order in which its bundles are visited. */
  datatype Visit = Visit(issue: string, bundles: seq<string>)

  ghost function BundleVerdict(d: ChainData, n: string, b: string, now: Time): Verdict
    requires n in d.issued && b in d.issued[n].caCertPEM
  {
    if LastCert(Bundle(d.issued[n], b)) != CACert(d) then Rejected
    else TLSVerdict(d.issued[n].certPEM, d.issued[n].keyPEM, d.issued[n].caCertPEM[b], now)
  }

  /** No matter when, verification panics once it gets to this bundle. */
  ghost predicate Nameless(d: ChainData, n: string, b: string) {
    && n in d.issued && b in d.issued[n].caCertPEM
    && LastCert(Bundle(d.issued[n], b)) == CACert(d)
    && NamelessAtHand(d.issued[n].certPEM, d.issued[n].keyPEM, d.issued[n].caCertPEM[b])
  }

  ghost predicate HasNameless(d: ChainData) {
    exists n, b :: Nameless(d, n, b)
  }

  ghost predicate HasRejected(d: ChainData, now: Time) {
    exists n <- d.issued, b <- d.issued[n].caCertPEM :: BundleVerdict(d, n, b, now) == Rejected
  }

  predicate Visitable(d: ChainData, n: string, bundles: seq<string>) {
    n in d.issued && forall b <- bundles :: b in d.issued[n].caCertPEM
  }

  ghost function IssueVerdict(d: ChainData, n: string, bundles: seq<string>, now: Time): Verdict
    requires Visitable(d, n, bundles)
  {
    if bundles == [] then Trusted
    else if BundleVerdict(d, n, bundles[0], now) != Trusted then BundleVerdict(d, n, bundles[0], now)
    else IssueVerdict(d, n, bundles[1..], now)
  }

  predicate AllVisitable(d: ChainData, order: seq<Visit>) {
    forall v <- order :: Visitable(d, v.issue, v.bundles)
  }

  ghost function VerdictInOrder(d: ChainData, order: seq<Visit>, now: Time): Verdict
    requires AllVisitable(d, order)
  {
    if order == [] then Trusted
    else
      var first := IssueVerdict(d, order[0].issue, order[0].bundles, now);
      if first != Trusted then first else VerdictInOrder(d, order[1..], now)
  }

  /** Every element once, in some order: what a range over a map visits. */
  ghost predicate Enumerates(names: seq<string>, all: set<string>) {
    && (forall n :: n in names <==> n in all)
    && forall i, j :: 0 <= i < j < |names| ==> names[i] != names[j]
  }

  function Issues(order: seq<Visit>): seq<string> {
    seq(|order|, i requires 0 <= i < |order| => order[i].issue)
  }

  ghost predicate VisitsAll(d: ChainData, order: seq<Visit>) {
    && Enumerates(Issues(order), d.issued.Keys)
    && forall v <- order :: v.issue in d.issued && Enumerates(v.bundles, d.issued[v.issue].caCertPEM.Keys)
  }

  lemma VisitsAllVisitable(d: ChainData, order: seq<Visit>)
    requires VisitsAll(d, order)
    ensures AllVisitable(d, order)
  {
  }

  // ---- What the verdict says ----

  lemma {:induction false} IssueVerdictIs(d: ChainData, n: string, bundles: seq<string>, now: Time)
    requires Visitable(d, n, bundles)
    ensures var v := IssueVerdict(d, n, bundles, now);
            && (v == Trusted <==> forall b <- bundles :: BundleVerdict(d, n, b, now) == Trusted)
            && (v != Trusted ==> exists b <- bundles :: BundleVerdict(d, n, b, now) == v)
  {
    hide BundleVerdict;
    if bundles != [] {
      assert forall b :: b in bundles <==> b == bundles[0] || b in bundles[1..];
      IssueVerdictIs(d, n, bundles[1..], now);
    }
  }

  lemma {:induction false} VerdictIs(d: ChainData, order: seq<Visit>, now: Time)
    requires AllVisitable(d, order)
    ensures var v := VerdictInOrder(d, order, now);
            && (v == Trusted <==> forall w <- order, b <- w.bundles :: BundleVerdict(d, w.issue, b, now) == Trusted)
            && (v != Trusted ==> exists w <- order, b <- w.bundles :: BundleVerdict(d, w.issue, b, now) == v)
  {
    hide BundleVerdict, IssueVerdict;
    if order != [] {
      assert forall w :: w in order <==> w == order[0] || w in order[1..];
      IssueVerdictIs(d, order[0].issue, order[0].bundles, now);
      VerdictIs(d, order[1..], now);
    }
  }

  lemma BundleTrusted(d: ChainData, n: string, b: string, now: Time)
    requires n in d.issued && b in d.issued[n].caCertPEM
    ensures BundleVerdict(d, n, b, now) == Trusted <==>
              && LastCert(Bundle(d.issued[n], b)) == CACert(d)
              && TLSVerifies(d.issued[n].certPEM, d.issued[n].keyPEM, d.issued[n].caCertPEM[b], now)
    ensures BundleVerdict(d, n, b, now) == Panics <==> Nameless(d, n, b)
  {
    hide VerifiesAgainst, InPool;
  }

  lemma VisitOf(d: ChainData, order: seq<Visit>, n: string, b: string)
    requires VisitsAll(d, order) && n in d.issued && b in d.issued[n].caCertPEM
    ensures exists w <- order :: w.issue == n && b in w.bundles
  {
    assert n in Issues(order);
    var i :| 0 <= i < |order| && Issues(order)[i] == n;
    assert order[i] in order;
  }

  /** Whatever the order, verification succeeds exactly on chains that verify. */
  lemma TrustedInAnyOrder(d: ChainData, order: seq<Visit>, now: Time)
    requires VisitsAll(d, order)
    ensures AllVisitable(d, order)
    ensures VerdictInOrder(d, order, now) == Trusted <==> Verifies(d, now)
    ensures VerdictInOrder(d, order, now) == Panics ==> HasNameless(d)
    ensures VerdictInOrder(d, order, now) == Rejected ==> HasRejected(d, now)
  {
    hide BundleVerdict, TLSVerifies, Nameless, Enumerates;
    VisitsAllVisitable(d, order);
    VerdictIs(d, order, now);
    forall n <- d.issued, b <- d.issued[n].caCertPEM ensures exists w <- order :: w.issue == n && b in w.bundles {
      VisitOf(d, order, n, b);
    }
    forall n <- d.issued, b <- d.issued[n].caCertPEM
      ensures BundleVerdict(d, n, b, now) == Trusted <==>
                && LastCert(Bundle(d.issued[n], b)) == CACert(d)
                && TLSVerifies(d.issued[n].certPEM, d.issued[n].keyPEM, d.issued[n].caCertPEM[b], now)
      ensures BundleVerdict(d, n, b, now) == Panics <==> Nameless(d, n, b)
    {
      BundleTrusted(d, n, b, now);
    }
  }

  // ---- Orders that begin where one likes ----

  ghost function Listing(names: set<string>): (l: seq<string>)
    ensures Enumerates(l, names)
    decreases |names|
  {
    if names == {} then []
    else
      var n := SomeOf(names);
      [n] + Listing(names - {n})
  }

  ghost function ListingFrom(n: string, names: set<string>): (l: seq<string>)
    requires n in names
    ensures Enumerates(l, names) && l != [] && l[0] == n
  {
    [n] + Listing(names - {n})
  }

  ghost function OrderFrom(d: ChainData, n: string, b: string): (order: seq<Visit>)
    requires n in d.issued && b in d.issued[n].caCertPEM
  {
    var names := ListingFrom(n, d.issued.Keys);
    seq(|names|, i requires 0 <= i < |names| =>
      if i == 0 then Visit(n, ListingFrom(b, d.issued[n].caCertPEM.Keys))
      else Visit(names[i], if names[i] in d.issued then Listing(d.issued[names[i]].caCertPEM.Keys) else []))
  }

  lemma OrderFromVisitsAll(d: ChainData, n: string, b: string)
    requires n in d.issued && b in d.issued[n].caCertPEM
    ensures VisitsAll(d, OrderFrom(d, n, b)) && OrderFrom(d, n, b) != []
  {
    hide Enumerates;
    var names := ListingFrom(n, d.issued.Keys);
    assert Issues(OrderFrom(d, n, b)) == names;
    forall v <- OrderFrom(d, n, b) ensures v.issue in d.issued && Enumerates(v.bundles, d.issued[v.issue].caCertPEM.Keys) {
      var i :| 0 <= i < |names| && OrderFrom(d, n, b)[i] == v;
      assert names[i] in names;
      EnumeratesMember(names, d.issued.Keys, names[i]);
    }
  }

  lemma EnumeratesMember(names: seq<string>, all: set<string>, n: string)
    requires Enumerates(names, all) && n in names
    ensures n in all
  {
  }

  /** The first bundle decides unless it is trusted. */
  lemma FirstDecides(d: ChainData, n: string, b: string, now: Time)
    requires n in d.issued && b in d.issued[n].caCertPEM && BundleVerdict(d, n, b, now) != Trusted
    ensures var order := OrderFrom(d, n, b);
            VisitsAll(d, order) && AllVisitable(d, order) && VerdictInOrder(d, order, now) == BundleVerdict(d, n, b, now)
  {
    hide BundleVerdict, VisitsAll;
    OrderFromVisitsAll(d, n, b);
    VisitsAllVisitable(d, OrderFrom(d, n, b));
  }

  /** Some order panics exactly when some bundle does, */
  lemma PanicsInSomeOrder(d: ChainData, now: Time)
    ensures (exists order :: VisitsAll(d, order) && AllVisitable(d, order) && VerdictInOrder(d, order, now) == Panics)
            <==> HasNameless(d)
  {
    hide VisitsAll, AllVisitable, VerdictInOrder, Nameless, BundleVerdict, OrderFrom;
    if n, b :| Nameless(d, n, b) {
      NamelessIsThere(d, n, b);
      BundleTrusted(d, n, b, now);
      FirstDecides(d, n, b, now);
      assert VerdictInOrder(d, OrderFrom(d, n, b), now) == Panics;
    }
    if order :| VisitsAll(d, order) && AllVisitable(d, order) && VerdictInOrder(d, order, now) == Panics {
      TrustedInAnyOrder(d, order, now);
    }
  }

  lemma NamelessIsThere(d: ChainData, n: string, b: string)
    requires Nameless(d, n, b)
    ensures n in d.issued && b in d.issued[n].caCertPEM
  {
  }

  /** and every order does exactly when, besides, no bundle is rejected. */
  lemma PanicsInEveryOrder(d: ChainData, now: Time)
    ensures (forall order :: VisitsAll(d, order) ==> AllVisitable(d, order) && VerdictInOrder(d, order, now) == Panics)
            <==> HasNameless(d) && !HasRejected(d, now)
  {
    hide VisitsAll, AllVisitable, VerdictInOrder, Nameless, BundleVerdict, OrderFrom, Verifies;
    if HasNameless(d) && !HasRejected(d, now) {
      var n, b :| Nameless(d, n, b);
      NamelessFails(d, n, b, now);
      forall order | VisitsAll(d, order) ensures AllVisitable(d, order) && VerdictInOrder(d, order, now) == Panics {
        TrustedInAnyOrder(d, order, now);
      }
    } else if HasRejected(d, now) {
      var n, b :| n in d.issued && b in d.issued[n].caCertPEM && BundleVerdict(d, n, b, now) == Rejected;
      FirstDecides(d, n, b, now);
      assert VerdictInOrder(d, OrderFrom(d, n, b), now) == Rejected;
    } else {
      var order := SomeVisits(d);
      TrustedInAnyOrder(d, order, now);
    }
  }

  lemma NamelessFails(d: ChainData, n: string, b: string, now: Time)
    requires Nameless(d, n, b)
    ensures !Verifies(d, now)
  {
    hide VerifiesAgainst, InPool;
    assert !TLSVerifies(d.issued[n].certPEM, d.issued[n].keyPEM, d.issued[n].caCertPEM[b], now);
  }

  ghost function VisitsOf(d: ChainData, names: seq<string>): (order: seq<Visit>) {
    seq(|names|, i requires 0 <= i < |names| =>
      Visit(names[i], if names[i] in d.issued then Listing(d.issued[names[i]].caCertPEM.Keys) else []))
  }

  ghost function SomeVisits(d: ChainData): (order: seq<Visit>)
    ensures VisitsAll(d, order) && AllVisitable(d, order)
  {
    var names := Listing(d.issued.Keys);
    assert Issues(VisitsOf(d, names)) == names;
    VisitsOf(d, names)
  }

  // ---- Visits one by one ----

  lemma NothingVisited(d: ChainData, n: string, now: Time)
    requires n in d.issued
    ensures Enumerates([], d.issued[n].caCertPEM.Keys - d.issued[n].caCertPEM.Keys) && Visitable(d, n, [])
    ensures IssueVerdict(d, n, [], now) == Trusted
  {
  }

  lemma EnumeratesConcat(a: seq<string>, b: seq<string>, all: set<string>, rest: set<string>)
    requires Enumerates(a, all) && Enumerates(b, rest) && all !! rest
    ensures Enumerates(a + b, all + rest)
  {
    forall i, j | 0 <= i < j < |a + b| ensures (a + b)[i] != (a + b)[j] {
      if i < |a| <= j {
        assert a[i] in a && b[j - |a|] in b;
      }
    }
  }

  lemma EnumeratesMore(names: seq<string>, all: set<string>, todo: set<string>, n: string)
    requires Enumerates(names, all - todo) && todo <= all && n in todo
    ensures Enumerates(names + [n], all - (todo - {n}))
    ensures Enumerates(names + [n] + Listing(todo - {n}), all)
  {
    assert Enumerates([n], {n});
    EnumeratesConcat(names, [n], all - todo, {n});
    assert all - todo + {n} == all - (todo - {n});
    EnumeratesConcat(names + [n], Listing(todo - {n}), all - (todo - {n}), todo - {n});
    assert all - (todo - {n}) + (todo - {n}) == all;
  }

  lemma {:induction false} IssueVerdictAfter(d: ChainData, n: string, front: seq<string>, back: seq<string>, now: Time)
    requires Visitable(d, n, front) && Visitable(d, n, back) && IssueVerdict(d, n, front, now) == Trusted
    ensures Visitable(d, n, front + back) && IssueVerdict(d, n, front + back, now) == IssueVerdict(d, n, back, now)
  {
    hide BundleVerdict;
    if front == [] {
      assert front + back == back;
    } else {
      IssueVerdictAfter(d, n, front[1..], back, now);
      assert (front + back)[1..] == front[1..] + back;
    }
  }

  lemma FirstBundleDecides(d: ChainData, n: string, b: string, rest: seq<string>, now: Time)
    requires n in d.issued && b in d.issued[n].caCertPEM && (rest == [] || Visitable(d, n, rest))
    ensures Visitable(d, n, [b] + rest)
    ensures rest == [] || BundleVerdict(d, n, b, now) != Trusted ==> IssueVerdict(d, n, [b] + rest, now) == BundleVerdict(d, n, b, now)
  {
    hide BundleVerdict;
    assert ([b] + rest)[1..] == rest;
  }

  lemma ListingVisitable(d: ChainData, n: string, names: set<string>)
    requires n in d.issued && names <= d.issued[n].caCertPEM.Keys
    ensures Visitable(d, n, Listing(names))
  {
  }

  lemma BundleVisited(d: ChainData, n: string, bundles: seq<string>, b: string, todo: set<string>, now: Time)
    requires n in d.issued && b in todo && todo <= d.issued[n].caCertPEM.Keys
    requires Enumerates(bundles, d.issued[n].caCertPEM.Keys - todo) && Visitable(d, n, bundles)
    requires IssueVerdict(d, n, bundles, now) == Trusted
    ensures var v := BundleVerdict(d, n, b, now);
            && Enumerates(bundles + [b], d.issued[n].caCertPEM.Keys - (todo - {b})) && Visitable(d, n, bundles + [b])
            && IssueVerdict(d, n, bundles + [b], now) == v
            && var all := bundles + [b] + Listing(todo - {b});
               Enumerates(all, d.issued[n].caCertPEM.Keys) && Visitable(d, n, all)
               && (v != Trusted ==> IssueVerdict(d, n, all, now) == v)
  {
    hide BundleVerdict, Enumerates, IssueVerdict, Visitable;
    var rest := Listing(todo - {b});
    assert [b] + [] == [b];
    EnumeratesMore(bundles, d.issued[n].caCertPEM.Keys, todo, b);
    FirstBundleDecides(d, n, b, [], now);
    ListingVisitable(d, n, todo - {b});
    FirstBundleDecides(d, n, b, rest, now);
    IssueVerdictAfter(d, n, bundles, [b], now);
    IssueVerdictAfter(d, n, bundles, [b] + rest, now);
    assert bundles + [b] + rest == bundles + ([b] + rest);
  }

  ghost predicate VisitsSome(d: ChainData, order: seq<Visit>, names: set<string>) {
    && Enumerates(Issues(order), names)
    && forall v <- order :: v.issue in d.issued && Enumerates(v.bundles, d.issued[v.issue].caCertPEM.Keys)
  }

  lemma NoneVisited(d: ChainData, now: Time)
    ensures VisitsSome(d, [], d.issued.Keys - d.issued.Keys) && AllVisitable(d, [])
    ensures VerdictInOrder(d, [], now) == Trusted
  {
  }

  lemma {:induction false} VerdictAfter(d: ChainData, front: seq<Visit>, back: seq<Visit>, now: Time)
    requires AllVisitable(d, front) && AllVisitable(d, back) && VerdictInOrder(d, front, now) == Trusted
    ensures AllVisitable(d, front + back) && VerdictInOrder(d, front + back, now) == VerdictInOrder(d, back, now)
  {
    hide IssueVerdict;
    if front == [] {
      assert front + back == back;
    } else {
      VerdictAfter(d, front[1..], back, now);
      assert (front + back)[1..] == front[1..] + back;
    }
  }

  lemma VisitsOfAll(d: ChainData, names: set<string>)
    requires names <= d.issued.Keys
    ensures var order := VisitsOf(d, Listing(names));
            VisitsSome(d, order, names) && AllVisitable(d, order) && Issues(order) == Listing(names)
  {
    assert Issues(VisitsOf(d, Listing(names))) == Listing(names);
  }

  lemma IssuesConcat(a: seq<Visit>, b: seq<Visit>)
    ensures Issues(a + b) == Issues(a) + Issues(b)
  {
  }

  lemma VisitsConcat(d: ChainData, a: seq<Visit>, b: seq<Visit>, names: set<string>, more: set<string>)
    requires VisitsSome(d, a, names) && VisitsSome(d, b, more) && names !! more
    requires AllVisitable(d, a) && AllVisitable(d, b)
    ensures VisitsSome(d, a + b, names + more) && AllVisitable(d, a + b)
  {
    hide Enumerates, Visitable;
    IssuesConcat(a, b);
    EnumeratesConcat(Issues(a), Issues(b), names, more);
  }

  lemma OneVisit(d: ChainData, v: Visit, now: Time)
    requires v.issue in d.issued && Enumerates(v.bundles, d.issued[v.issue].caCertPEM.Keys) && Visitable(d, v.issue, v.bundles)
    ensures VisitsSome(d, [v], {v.issue}) && AllVisitable(d, [v])
    ensures VerdictInOrder(d, [v], now) == IssueVerdict(d, v.issue, v.bundles, now)
  {
    hide IssueVerdict;
    assert Issues([v]) == [v.issue];
    assert [v][1..] == [];
  }

  lemma VerdictOfFirst(d: ChainData, v: Visit, rest: seq<Visit>, now: Time)
    requires Visitable(d, v.issue, v.bundles) && AllVisitable(d, rest)
    ensures AllVisitable(d, [v] + rest)
    ensures var verdict := IssueVerdict(d, v.issue, v.bundles, now);
            verdict != Trusted ==> VerdictInOrder(d, [v] + rest, now) == verdict
  {
    hide IssueVerdict;
  }

  lemma IssueVisited(d: ChainData, order: seq<Visit>, v: Visit, todo: set<string>, now: Time)
    requires v.issue in todo && todo <= d.issued.Keys && VisitsSome(d, order, d.issued.Keys - todo) && AllVisitable(d, order)
    requires Enumerates(v.bundles, d.issued[v.issue].caCertPEM.Keys) && Visitable(d, v.issue, v.bundles)
    requires VerdictInOrder(d, order, now) == Trusted
    ensures var verdict := IssueVerdict(d, v.issue, v.bundles, now);
            && VisitsSome(d, order + [v], d.issued.Keys - (todo - {v.issue})) && AllVisitable(d, order + [v])
            && VerdictInOrder(d, order + [v], now) == verdict
            && var all := order + [v] + VisitsOf(d, Listing(todo - {v.issue}));
               VisitsAll(d, all) && AllVisitable(d, all) && (verdict != Trusted ==> VerdictInOrder(d, all, now) == verdict)
  {
    hide IssueVerdict, Enumerates, Visitable, VisitsSome, AllVisitable, VerdictInOrder, VisitsOf, Listing;
    var all, later := d.issued.Keys, todo - {v.issue};
    var rest := VisitsOf(d, Listing(later));
    VisitsOfAll(d, later);
    OneVisit(d, v, now);
    VisitsConcat(d, order, [v], all - todo, {v.issue});
    assert all - todo + {v.issue} == all - later;
    VisitsConcat(d, order + [v], rest, all - later, later);
    assert all - later + later == all;
    VisitsSomeAll(d, order + [v] + rest);
    VerdictAfter(d, order, [v], now);
    VerdictOfFirst(d, v, rest, now);
    VerdictAfter(d, order, [v] + rest, now);
    assert order + [v] + rest == order + ([v] + rest);
  }

  lemma VisitsSomeAll(d: ChainData, order: seq<Visit>)
    requires VisitsSome(d, order, d.issued.Keys)
    ensures VisitsAll(d, order)
  {
  }

  // ---- Updates ----

  /** What an update comes to when verification goes in a given order. */
  ghost function UpdateInOrder(o: Options, d: ChainData, order: seq<Visit>, draw: Draw, now: Time): Outcome<ChainData>
    requires VisitsAll(d, order)
  {
    VisitsAllVisitable(d, order);
    if now < FindRotationDeadlineForCA(o, d) && VerdictInOrder(d, order, now) == Panics then Panicked
    else if Succeeds(o, d, now) then Done(Updated(o, d, draw, now))
    else Error("Failed rotating")
  }

  /** An update may panic exactly when the CA is not due and some bundle makes verification panic, */
  ghost predicate MayPanic(o: Options, d: ChainData, now: Time) {
    now < FindRotationDeadlineForCA(o, d) && HasNameless(d)
  }

  /** and always does exactly when, besides, no bundle is rejected. */
  ghost predicate MustPanic(o: Options, d: ChainData, now: Time) {
    MayPanic(o, d, now) && !HasRejected(d, now)
  }

  lemma UpdatePanics(o: Options, d: ChainData, draw: Draw, now: Time)
    ensures (exists order :: VisitsAll(d, order) && UpdateInOrder(o, d, order, draw, now).Panicked?) <==> MayPanic(o, d, now)
    ensures (forall order :: VisitsAll(d, order) ==> UpdateInOrder(o, d, order, draw, now).Panicked?) <==> MustPanic(o, d, now)
  {
    hide VisitsAll, VerdictInOrder, HasNameless, HasRejected, FindRotationDeadlineForCA, Succeeds, Updated;
    PanicsInSomeOrder(d, now);
    PanicsInEveryOrder(d, now);
    assert VisitsAll(d, SomeVisits(d));
    if now < FindRotationDeadlineForCA(o, d) {
      forall order | VisitsAll(d, order)
        ensures AllVisitable(d, order)
        ensures UpdateInOrder(o, d, order, draw, now).Panicked? <==> VerdictInOrder(d, order, now) == Panics
      {
        VisitsAllVisitable(d, order);
      }
    } else {
      forall order | VisitsAll(d, order) ensures !UpdateInOrder(o, d, order, draw, now).Panicked? {
      }
    }
  }
}
