/**
 * The certificate chain as the program runs it: objects whose fields the
 * updates overwrite (pkg/certificate/chain). Every method is proved against
 * the function of module ChainModel that says what it computes.
 */
module Chain {
  import opened Common
  import opened Triple
  import opened ChainOptions
  import opened ChainModel
  import opened ChainFacts
  import opened ChainInvariant
  import opened ChainPrediction
  import opened ChainRepair
  import opened ChainVerdicts

  /** Where private keys come from: no two draws give the same key. */
  class KeySource {
    var next: KeyId

    constructor (next: KeyId)
      ensures this.next == next
    {
      this.next := next;
    }

    method NewPrivateKey() returns (key: KeyId)
      modifies this
      ensures key == old(next) && next == old(next) + 1
    {
      key := next;
      next := next + 1;
    }
  }

  /** Keys for some names, all different and all drawn from the given range. */
  predicate LeavesDrawn(leaves: map<string, KeyId>, from: KeyId, to: KeyId) {
    && (forall n <- leaves :: from <= leaves[n] < to)
    && forall m <- leaves, n <- leaves :: m != n ==> leaves[m] != leaves[n]
  }

  lemma NoLeavesDrawn(next: KeyId)
    ensures LeavesDrawn(map[], next, next)
  {
  }

  lemma LeafDrawn(leaves: map<string, KeyId>, n: string, from: KeyId, to: KeyId)
    requires LeavesDrawn(leaves, from, to) && n !in leaves && from <= to
    ensures LeavesDrawn(leaves, from, to + 1)
    ensures LeavesDrawn(leaves[n := to], from, to + 1)
  {
  }

  /** Every key in the data was drawn before. */
  predicate KeysBelow(d: ChainData, next: KeyId) {
    && (d.ca.keyPair.Some? ==> d.ca.keyPair.value.key < next)
    && forall n <- d.issued :: d.issued[n].key.Some? ==> d.issued[n].key.value < next
  }

  /** The keys that an update taking the given action draws. */
  predicate Drawn(draw: Draw, action: Action, names: set<string>, from: KeyId, to: KeyId) {
    match action
    case RotateAll => from <= draw.ca < to && draw.leaves.Keys == names && LeavesDrawn(draw.leaves, draw.ca + 1, to)
    case RotateCerts => draw.leaves.Keys == names && LeavesDrawn(draw.leaves, from, to)
    case Keep => from == to
  }

  /** What an update draws is new to data whose keys were all drawn before. */
  lemma DrawnKeysAreNew(d: ChainData, draw: Draw, action: Action, from: KeyId, to: KeyId)
    requires KeysBelow(d, from) && Drawn(draw, action, d.issued.Keys, from, to)
    ensures NewKeys(d, draw, action)
  {
    if action != Keep {
      forall n <- d.issued ensures d.issued[n].key != Some(LeafKey(draw, n)) {
        assert from <= draw.leaves[n];
      }
    }
  }

  class CertificateChainData {
    var issued: map<string, CertificateIssue>
    var ca: CA

    constructor (issued: map<string, CertificateIssue>, ca: CA)
      ensures this.issued == issued && this.ca == ca
    {
      this.issued := issued;
      this.ca := ca;
    }

    ghost function Value(): ChainData
      reads this
    {
      ChainData(issued, ca)
    }
  }

  // ---- Loops over the bundles of one issue ----

  method ParseBundles(pems: map<string, PEM>) returns (caCerts: map<string, seq<Certificate>>)
    ensures caCerts == map b <- pems :: CertsIn(pems[b])
  {
    caCerts := map[];
    var todo := pems.Keys;
    while todo != {}
      invariant todo <= pems.Keys
      invariant caCerts.Keys == pems.Keys - todo
      invariant forall b <- caCerts :: caCerts[b] == CertsIn(pems[b])
      decreases todo
    {
      var b := AnyOf(todo);
      todo := todo - {b};
      var certs, failed := ParseCertsPEM(pems[b]);
      caCerts := caCerts[b := certs];
    }
  }

  lemma WithCACertPointwise(i: CertificateIssue, cert: Certificate,
                            caCerts: map<string, seq<Certificate>>, pems: map<string, PEM>)
    requires caCerts.Keys == i.caCerts.Keys && pems.Keys == i.caCertPEM.Keys + i.caCerts.Keys
    requires forall b <- i.caCerts :: caCerts[b] == i.caCerts[b] + [cert] && pems[b] == EncodedCerts(i.caCerts[b] + [cert])
    requires forall b <- i.caCertPEM :: b !in i.caCerts ==> pems[b] == i.caCertPEM[b]
    ensures i.(caCerts := caCerts, caCertPEM := pems) == WithCACert(i, cert)
  {
    assert caCerts == WithCACert(i, cert).caCerts;
    assert pems == WithCACert(i, cert).caCertPEM;
  }

  method AppendToBundles(i: CertificateIssue, cert: Certificate) returns (j: CertificateIssue)
    ensures j == WithCACert(i, cert)
  {
    hide EncodedCerts, WithCACert;
    var caCerts, pems := i.caCerts, i.caCertPEM;
    var todo := i.caCerts.Keys;
    while todo != {}
      invariant todo <= i.caCerts.Keys
      invariant caCerts.Keys == i.caCerts.Keys
      invariant pems.Keys == i.caCertPEM.Keys + (i.caCerts.Keys - todo)
      invariant forall b <- todo :: caCerts[b] == i.caCerts[b]
      invariant forall b <- i.caCerts :: b !in todo ==>
                  caCerts[b] == i.caCerts[b] + [cert] && pems[b] == EncodedCerts(i.caCerts[b] + [cert])
      invariant forall b <- i.caCertPEM :: b !in i.caCerts ==> pems[b] == i.caCertPEM[b]
      decreases todo
    {
      var b := AnyOf(todo);
      todo := todo - {b};
      caCerts := caCerts[b := caCerts[b] + [cert]];
      var pem := EncodeCertsPEM(caCerts[b]);
      pems := pems[b := pem];
    }
    j := i.(caCerts := caCerts, caCertPEM := pems);
    WithCACertPointwise(i, cert, caCerts, pems);
  }

  // ---- Clean-up in place ----

  /**
   * Compacts the list over its own backing array and returns the new length:
   * what remains is the order-preserving filter, and the tail is as it was.
   */
  method CleanUpCertificateList(list: array<Certificate>, now: Time) returns (length: nat)
    modifies list
    ensures length <= list.Length
    ensures list[..length] == CleanedUp(old(list[..]), now)
    ensures list.Length <= 1 ==> length == list.Length
    ensures list[length..] == old(list[length..])
  {
    if list.Length <= 1 {
      return list.Length;
    }
    length := 0;
    ghost var before := list[..];
    for i := 0 to list.Length
      invariant length <= i
      invariant forall k :: length <= k < list.Length ==> list[k] == before[k]
      invariant list[..length] == Unexpired(before[..i], now)
    {
      assert before[..i + 1] == before[..i] + [before[i]];
      UnexpiredConcat(before[..i], [before[i]], now);
      assert [before[i]][1..] == [];
      if list[i].NotAfter() > now {
        list[length] := list[i];
        length := length + 1;
        assert list[..length] == list[..length - 1] + [before[i]];
      }
    }
    assert before[..list.Length] == before;
  }

  /** Cleaning up a slice: the result is a prefix of the same backing array. */
  method CleanUp(certs: seq<Certificate>, now: Time) returns (cleaned: seq<Certificate>)
    ensures cleaned == CleanedUp(certs, now)
  {
    var backing := new Certificate[|certs|](i requires 0 <= i < |certs| => certs[i]);
    assert backing[..] == certs;
    var length := CleanUpCertificateList(backing, now);
    cleaned := backing[..length];
  }

  /** All bundles but those in todo have been cleaned up, in both formats. */
  predicate BundlesPartlyCleaned(i: CertificateIssue, j: CertificateIssue, todo: set<string>, now: Time) {
    && todo <= i.caCerts.Keys == j.caCerts.Keys
    && j == i.(caCerts := j.caCerts, caCertPEM := j.caCertPEM)
    && j.caCertPEM.Keys == i.caCertPEM.Keys + (i.caCerts.Keys - todo)
    && (forall b <- i.caCerts ::
          if b in todo then j.caCerts[b] == i.caCerts[b]
          else j.caCerts[b] == CleanedUp(i.caCerts[b], now) && j.caCertPEM[b] == EncodedCerts(j.caCerts[b]))
    && forall b <- i.caCertPEM :: b !in i.caCerts ==> j.caCertPEM[b] == i.caCertPEM[b]
  }

  lemma NoBundleCleaned(i: CertificateIssue, now: Time)
    ensures BundlesPartlyCleaned(i, i, i.caCerts.Keys, now)
  {
  }

  lemma BundleCleaned(i: CertificateIssue, j: CertificateIssue, todo: set<string>, b: string, now: Time)
    requires BundlesPartlyCleaned(i, j, todo, now) && b in todo
    ensures b in j.caCerts
    ensures BundlesPartlyCleaned(i, WithBundle(j, b, CleanedUp(j.caCerts[b], now)), todo - {b}, now)
  {
    hide CleanedUp, EncodedCerts;
  }

  lemma BundlesCleanedUpPointwise(i: CertificateIssue, j: CertificateIssue, now: Time)
    requires BundlesPartlyCleaned(i, j, {}, now)
    ensures j == WithBundlesCleanedUp(i, now)
  {
    hide CleanedUp, EncodedCerts;
    assert j.caCerts == WithBundlesCleanedUp(i, now).caCerts;
    assert j.caCertPEM == WithBundlesCleanedUp(i, now).caCertPEM;
  }

  // ---- Deadlines ----

  method EarliestOf(values: seq<Time>) returns (t: Time)
    ensures t == MinTime(set v: int | v in values)
  {
    t := 0;
    for i := 0 to |values|
      invariant i == 0 ==> t == 0
      invariant i > 0 ==> t in values[..i]
      invariant forall v <- values[..i] :: t <= v
    {
      assert values[..i + 1] == values[..i] + [values[i]];
      if i == 0 || values[i] < t {
        t := values[i];
      }
    }
    assert values[..|values|] == values;
    ghost var times := set v: int | v in values;
    if values != [] {
      assert t in times;
      assert MinTime(times) in times && MinTime(times) in values;
    } else {
      assert times != {} ==> MinTime(times) in values;
    }
  }

  method DeadlinesOfBundles(i: CertificateIssue, overlap: Time) returns (empty: bool, deadlines: seq<Time>)
    ensures empty <==> exists b <- i.caCerts :: i.caCerts[b] == []
    ensures !empty ==> forall t :: t in deadlines <==>
              exists b <- i.caCerts :: i.caCerts[b] != [] && t == NextRotationDeadline(Last(i.caCerts[b]), overlap)
  {
    hide NextRotationDeadline;
    empty, deadlines := false, [];
    var todo := i.caCerts.Keys;
    while todo != {}
      invariant todo <= i.caCerts.Keys
      invariant forall b <- i.caCerts.Keys - todo :: i.caCerts[b] != []
      invariant forall t :: t in deadlines <==>
                  exists b <- i.caCerts.Keys - todo ::
                    i.caCerts[b] != [] && t == NextRotationDeadline(Last(i.caCerts[b]), overlap)
      decreases todo
    {
      var b := AnyOf(todo);
      todo := todo - {b};
      if i.caCerts[b] == [] {
        return true, [];
      }
      deadlines := deadlines + [NextRotationDeadline(Last(i.caCerts[b]), overlap)];
    }
  }

  lemma ActionNeedsCA(o: Options, d: ChainData, now: Time)
    requires Coherent(d) && 0 <= now && ActionAt(o, d, now) != RotateAll
    ensures CACert(d).Some?
  {
    hide FindRotationDeadlineForCA, FindRotationDeadlineForCerts, Verifies;
    CADeadline(o, d);
    VerifiedHasCA(d, now);
  }

  method Expirations(certs: seq<Certificate>) returns (deadlines: seq<Time>)
    ensures forall v :: v in deadlines <==> exists j :: 0 <= j < |certs| && v == certs[j].NotAfter()
  {
    deadlines := [];
    for i := 0 to |certs|
      invariant forall v :: v in deadlines <==> exists j :: 0 <= j < i && v == certs[j].NotAfter()
    {
      deadlines := deadlines + [certs[i].NotAfter()];
    }
  }

  method ExpirationsOfBundles(i: CertificateIssue) returns (deadlines: seq<Time>)
    ensures forall v :: v in deadlines <==>
              exists b, j :: b in i.caCerts && 0 <= j < |i.caCerts[b]| && v == i.caCerts[b][j].NotAfter()
  {
    deadlines := [];
    var todo := i.caCerts.Keys;
    while todo != {}
      invariant todo <= i.caCerts.Keys
      invariant forall v :: v in deadlines <==>
                  exists b, j :: b in i.caCerts && b !in todo && 0 <= j < |i.caCerts[b]| && v == i.caCerts[b][j].NotAfter()
      decreases todo
    {
      var b := AnyOf(todo);
      todo := todo - {b};
      var found := Expirations(i.caCerts[b]);
      deadlines := deadlines + found;
    }
  }

  lemma RotatedCertsPointwise(o: Options, d: ChainData, issued: map<string, CertificateIssue>, ca: KeyPair,
                              leaves: map<string, KeyId>, now: Time, mode: Mode)
    requires issued.Keys == d.issued.Keys == leaves.Keys
    requires forall n <- issued :: issued[n] == RotatedIssue(o, ca, d.issued[n], leaves[n], now, mode)
    ensures d.(issued := issued) == RotatedCerts(o, d, ca, Draw(0, leaves), now, mode)
  {
    assert issued == RotatedCerts(o, d, ca, Draw(0, leaves), now, mode).issued;
  }

  lemma OnlyLeavesMatter(o: Options, d: ChainData, ca: KeyPair, key: KeyId, leaves: map<string, KeyId>, now: Time)
    ensures RotatedCerts(o, d, ca, Draw(0, leaves), now, Reset) == RotatedCerts(o, d, ca, Draw(key, leaves), now, Reset)
  {
    hide RotatedIssue;
    assert forall n <- d.issued :: LeafKey(Draw(0, leaves), n) == LeafKey(Draw(key, leaves), n);
  }

  lemma SameNames(d: ChainData, pair: KeyPair)
    ensures AllNamed(WithCAKeyPair(d, pair)) <==> AllNamed(d)
  {
    hide EncodedCerts;
    assert forall n <- d.issued :: WithCAKeyPair(d, pair).issued[n].name == d.issued[n].name;
  }

  // ---- The chain ----

  class CertificateChain {
    const options: Options
    const data: CertificateChainData
    const keys: KeySource
    const now: Time

    constructor (options: Options, data: CertificateChainData, keys: KeySource, now: Time)
      ensures this.options == options && this.data == data && this.keys == keys && this.now == now
    {
      this.options := options;
      this.data := data;
      this.keys := keys;
      this.now := now;
    }

    // ---- Mutators ----

    method SetCaKeyPair(pair: KeyPair)
      modifies data
      ensures data.Value() == WithCAKeyPair(old(data.Value()), pair)
    {
      data.ca := data.ca.(keyPair := Some(pair), keyPEM := EncodePrivateKeyPEM(pair.key),
                          certPEM := EncodeCertPEM(pair.cert));
      ghost var before := data.issued;
      var todo := data.issued.Keys;
      while todo != {}
        invariant todo <= before.Keys == data.issued.Keys
        invariant data.ca == WithCAKeyPair(old(data.Value()), pair).ca
        invariant forall n <- before ::
                    data.issued[n] == if n in todo then before[n] else WithCACert(before[n], pair.cert)
        decreases todo
      {
        var n := AnyOf(todo);
        todo := todo - {n};
        var issue := AppendToBundles(data.issued[n], pair.cert);
        data.issued := data.issued[n := issue];
      }
      assert data.issued == WithCAKeyPair(old(data.Value()), pair).issued;
    }

    method SetCaCerts(n: string, b: string, caCerts: seq<Certificate>)
      requires n in data.issued
      modifies data
      ensures data.ca == old(data.ca)
      ensures data.issued == old(data.issued)[n := WithBundle(old(data.issued)[n], b, caCerts)]
    {
      var issue := data.issued[n];
      var pem := EncodeCertsPEM(caCerts);
      data.issued := data.issued[n := issue.(caCerts := issue.caCerts[b := caCerts],
                                             caCertPEM := issue.caCertPEM[b := pem])];
    }

    method SetKeyResetCert(n: string, pair: KeyPair)
      requires n in data.issued
      modifies data
      ensures data.ca == old(data.ca)
      ensures data.issued == old(data.issued)[n := WithKeyReset(old(data.issued)[n], pair)]
    {
      data.issued := data.issued[n := data.issued[n].(
        key := Some(pair.key), certs := [pair.cert],
        keyPEM := EncodePrivateKeyPEM(pair.key), certPEM := EncodeCertPEM(pair.cert))];
    }

    method SetKeyAppendCert(n: string, pair: KeyPair)
      requires n in data.issued
      modifies data
      ensures data.ca == old(data.ca)
      ensures data.issued == old(data.issued)[n := WithKeyAppended(old(data.issued)[n], pair)]
    {
      var certs := data.issued[n].certs + [pair.cert];
      var pem := EncodeCertsPEM(certs);
      data.issued := data.issued[n := data.issued[n].(
        key := Some(pair.key), certs := certs, keyPEM := EncodePrivateKeyPEM(pair.key), certPEM := pem)];
    }

    method SetCerts(n: string, certs: seq<Certificate>)
      requires n in data.issued
      modifies data
      ensures data.ca == old(data.ca)
      ensures data.issued == old(data.issued)[n := WithCerts(old(data.issued)[n], certs)]
    {
      var pem := EncodeCertsPEM(certs);
      data.issued := data.issued[n := data.issued[n].(certs := certs, certPEM := pem)];
    }

    // ---- Rotation ----

    /** One turn of the loop in RotateCerts: refused without a common name. */
    method RotateCert(n: string, mode: Mode) returns (ok: bool)
      requires data.ca.keyPair.Some? && data as object != keys && n in data.issued
      modifies data, keys
      ensures keys.next == old(keys.next) + 1 && data.ca == old(data.ca)
      ensures ok <==> old(data.issued[n].name) != ""
      ensures data.issued == if ok then
                old(data.issued)[n := RotatedIssue(options, data.ca.keyPair.value, old(data.issued[n]), old(keys.next), now, mode)]
              else old(data.issued)
    {
      var key := keys.NewPrivateKey();
      var issue := data.issued[n];
      var pair := NewServerKeyPair(data.ca.keyPair.value, issue.name, issue.hostnames, key,
                                   options.certRotateInterval, now);
      if pair.Err? {
        return false;
      }
      if mode == Reset {
        SetKeyResetCert(n, pair.value);
      } else {
        SetKeyAppendCert(n, pair.value);
      }
      ok := true;
    }

    /** Stops at the first issue without a common name, with the issues before it rotated. */
    method RotateCerts(mode: Mode) returns (ok: bool, ghost leaves: map<string, KeyId>)
      requires data.ca.keyPair.Some? && data as object != keys
      modifies data, keys
      ensures ok <==> old(AllNamed(data.Value()))
      ensures LeavesDrawn(leaves, old(keys.next), keys.next) && old(keys.next) <= keys.next
      ensures data.ca == old(data.ca) && data.issued.Keys == old(data.issued.Keys)
      ensures ok ==> leaves.Keys == old(data.issued.Keys)
      ensures ok ==> data.Value() == RotatedCerts(options, old(data.Value()), data.ca.keyPair.value, Draw(0, leaves), now, mode)
      ensures !ok ==> forall n <- data.issued ::
                data.issued[n] == if n in leaves then
                                    RotatedIssue(options, data.ca.keyPair.value, old(data.issued)[n], leaves[n], now, mode)
                                  else old(data.issued)[n]
    {
      hide RotatedIssue, LeavesDrawn, RotatedCerts;
      leaves := map[];
      assert LeavesDrawn(leaves, keys.next, keys.next) by { NoLeavesDrawn(keys.next); }
      var pairOfCA := data.ca.keyPair.value;
      ghost var before := data.issued;
      var todo := data.issued.Keys;
      while todo != {}
        invariant todo <= before.Keys == data.issued.Keys
        invariant data.ca == old(data.ca) && old(keys.next) <= keys.next
        invariant LeavesDrawn(leaves, old(keys.next), keys.next)
        invariant forall n <- before :: n in todo <==> n !in leaves
        invariant leaves.Keys <= before.Keys
        invariant forall n <- leaves :: before[n].name != ""
        invariant forall n <- todo :: data.issued[n] == before[n]
        invariant forall n <- leaves :: data.issued[n] == RotatedIssue(options, pairOfCA, before[n], leaves[n], now, mode)
        decreases todo
      {
        var n := AnyOf(todo);
        todo := todo - {n};
        LeafDrawn(leaves, n, old(keys.next), keys.next);
        ghost var key := keys.next;
        ok := RotateCert(n, mode);
        if !ok {
          return;
        }
        leaves := leaves[n := key];
      }
      ok := true;
      assert leaves.Keys == before.Keys;
      RotatedCertsPointwise(options, old(data.Value()), data.issued, pairOfCA, leaves, now, mode);
    }

    method RotateAll() returns (ok: bool, ghost draw: Draw)
      requires data as object != keys
      modifies data, keys
      ensures ok <==> old(AllNamed(data.Value()))
      ensures old(keys.next) <= keys.next
      ensures ok ==> Drawn(draw, Action.RotateAll, old(data.issued.Keys), old(keys.next), keys.next)
      ensures ok ==> data.Value() == RotatedAll(options, old(data.Value()), draw, now)
    {
      hide AllNamed, RotatedCerts, LeavesDrawn, NewCA, WithCACert;
      ghost var before := data.Value();
      var key := keys.NewPrivateKey();
      var pair := NewCA(data.ca.name, key, options.caRotateInterval, now);
      SetCaKeyPair(pair);
      SameNames(before, pair);
      ghost var leaves;
      ok, leaves := RotateCerts(Reset);
      draw := Draw(key, leaves);
      OnlyLeavesMatter(options, WithCAKeyPair(before, pair), pair, key, leaves, now);
    }

    // ---- Clean-up ----

    /** The inner loop of CleanUpCACerts. */
    method CleanUpBundles(n: string)
      requires n in data.issued
      modifies data
      ensures data.ca == old(data.ca)
      ensures data.issued == old(data.issued)[n := WithBundlesCleanedUp(old(data.issued)[n], now)]
    {
      hide CleanedUp, WithBundle, WithBundlesCleanedUp, BundlesPartlyCleaned;
      ghost var i, issued := data.issued[n], data.issued;
      NoBundleCleaned(i, now);
      var todo := data.issued[n].caCerts.Keys;
      while todo != {}
        invariant n in data.issued && data.ca == old(data.ca) && data.issued == issued[n := data.issued[n]]
        invariant BundlesPartlyCleaned(i, data.issued[n], todo, now)
        decreases todo
      {
        var b := AnyOf(todo);
        BundleCleaned(i, data.issued[n], todo, b, now);
        var cleaned := CleanUp(data.issued[n].caCerts[b], now);
        todo := todo - {b};
        SetCaCerts(n, b, cleaned);
      }
      BundlesCleanedUpPointwise(i, data.issued[n], now);
    }

    method CleanUpCACerts()
      modifies data
      ensures data.Value() == CleanedUpCACerts(old(data.Value()), now)
    {
      ghost var before := data.issued;
      var todo := data.issued.Keys;
      while todo != {}
        invariant todo <= before.Keys == data.issued.Keys
        invariant data.ca == old(data.ca)
        invariant forall n <- before ::
                    data.issued[n] == if n in todo then before[n] else WithBundlesCleanedUp(before[n], now)
        decreases todo
      {
        var n := AnyOf(todo);
        todo := todo - {n};
        CleanUpBundles(n);
      }
      assert data.issued == CleanedUpCACerts(old(data.Value()), now).issued;
    }

    method CleanUpCerts()
      modifies data
      ensures data.Value() == CleanedUpCerts(old(data.Value()), now)
    {
      hide CleanedUp;
      ghost var before := data.issued;
      var todo := data.issued.Keys;
      while todo != {}
        invariant todo <= before.Keys == data.issued.Keys
        invariant data.ca == old(data.ca)
        invariant forall n <- before ::
                    data.issued[n] == if n in todo then before[n]
                                      else WithCerts(before[n], CleanedUp(before[n].certs, now))
        decreases todo
      {
        var n := AnyOf(todo);
        todo := todo - {n};
        var certs := CleanUp(data.issued[n].certs, now);
        SetCerts(n, certs);
      }
      assert data.issued == CleanedUpCerts(old(data.Value()), now).issued;
    }

    // ---- Deadlines ----

    method RotationDeadlineForCA() returns (t: Time)
      ensures t == FindRotationDeadlineForCA(options, data.Value())
    {
      hide NextRotationDeadline;
      var issued, deadlines := data.issued, [];
      var todo := issued.Keys;
      while todo != {}
        invariant todo <= issued.Keys && issued == data.issued
        invariant forall n <- issued.Keys - todo, b <- issued[n].caCerts :: issued[n].caCerts[b] != []
        invariant forall v :: v in deadlines <==>
                    exists n, b :: n in issued && n !in todo && b in issued[n].caCerts && issued[n].caCerts[b] != []
                      && v == NextRotationDeadline(Last(issued[n].caCerts[b]), options.caOverlapInterval)
        decreases todo
      {
        var n := AnyOf(todo);
        todo := todo - {n};
        var empty, found := DeadlinesOfBundles(issued[n], options.caOverlapInterval);
        if empty {
          return 0;
        }
        deadlines := deadlines + found;
      }
      t := EarliestOf(deadlines);
      assert !HasEmptyBundle(data.Value());
      assert (set v: int | v in deadlines) == CADeadlines(options, data.Value());
    }

    method RotationDeadlineForCerts() returns (t: Time)
      ensures t == FindRotationDeadlineForCerts(options, data.Value())
    {
      hide NextRotationDeadline;
      var issued, deadlines := data.issued, [];
      var todo := issued.Keys;
      while todo != {}
        invariant todo <= issued.Keys && issued == data.issued
        invariant forall n <- issued.Keys - todo :: issued[n].certs != []
        invariant forall v :: v in deadlines <==>
                    exists n :: n in issued && n !in todo && issued[n].certs != []
                      && v == NextRotationDeadline(Last(issued[n].certs), options.certOverlapInterval)
        decreases todo
      {
        var n := AnyOf(todo);
        todo := todo - {n};
        if issued[n].certs == [] {
          return 0;
        }
        deadlines := deadlines + [NextRotationDeadline(Last(issued[n].certs), options.certOverlapInterval)];
      }
      t := EarliestOf(deadlines);
      assert (set v: int | v in deadlines) == CertDeadlines(options, data.Value());
    }

    method CleanUpDeadlineForCACerts() returns (t: Time)
      ensures t == FindCleanUpDeadlineForCACerts(data.Value())
    {
      var issued, deadlines := data.issued, [];
      var todo := issued.Keys;
      while todo != {}
        invariant todo <= issued.Keys && issued == data.issued
        invariant forall v :: v in deadlines <==>
                    exists n, b, j :: n in issued && n !in todo && b in issued[n].caCerts
                      && 0 <= j < |issued[n].caCerts[b]| && v == issued[n].caCerts[b][j].NotAfter()
        decreases todo
      {
        var n := AnyOf(todo);
        todo := todo - {n};
        var found := ExpirationsOfBundles(issued[n]);
        deadlines := deadlines + found;
      }
      t := EarliestOf(deadlines);
      assert (set v: int | v in deadlines) == CAExpirations(data.Value());
    }

    method CleanUpDeadlineForCerts() returns (t: Time)
      ensures t == FindCleanUpDeadlineForCerts(data.Value())
    {
      var issued, deadlines := data.issued, [];
      var todo := issued.Keys;
      while todo != {}
        invariant todo <= issued.Keys && issued == data.issued
        invariant forall v :: v in deadlines <==>
                    exists n, j :: n in issued && n !in todo
                      && 0 <= j < |issued[n].certs| && v == issued[n].certs[j].NotAfter()
        decreases todo
      {
        var n := AnyOf(todo);
        todo := todo - {n};
        var found := Expirations(issued[n].certs);
        deadlines := deadlines + found;
      }
      t := EarliestOf(deadlines);
      assert (set v: int | v in deadlines) == CertExpirations(data.Value());
    }

    // ---- Verification ----

    /** The bundles of one issue, in any order, up to the first that is not trusted. */
    method VerifyIssue(n: string) returns (v: Verdict, ghost bundles: seq<string>)
      requires n in data.issued
      ensures Enumerates(bundles, data.issued[n].caCertPEM.Keys) && Visitable(data.Value(), n, bundles)
      ensures v == IssueVerdict(data.Value(), n, bundles, now)
    {
      hide TLSVerdict, Enumerates, IssueVerdict;
      var issue := data.issued[n];
      var caCert := if data.ca.keyPair.None? then None else Some(data.ca.keyPair.value.cert);
      var todo := issue.caCertPEM.Keys;
      bundles := [];
      NothingVisited(data.Value(), n, now);
      while todo != {}
        invariant todo <= issue.caCertPEM.Keys
        invariant Enumerates(bundles, issue.caCertPEM.Keys - todo) && Visitable(data.Value(), n, bundles)
        invariant IssueVerdict(data.Value(), n, bundles, now) == Trusted
        decreases todo
      {
        var b := AnyOf(todo);
        BundleVisited(data.Value(), n, bundles, b, todo, now);
        if LastCert(Bundle(issue, b)) != caCert {
          v := Rejected;
        } else {
          v := Triple.VerifyTLS(issue.certPEM, issue.keyPEM, issue.caCertPEM[b], now);
        }
        todo := todo - {b};
        if v != Trusted {
          bundles := bundles + [b] + Listing(todo);
          return;
        }
        bundles := bundles + [b];
      }
      assert issue.caCertPEM.Keys - todo == issue.caCertPEM.Keys;
      v := Trusted;
    }

    /** The issues, in any order, up to the first that is not trusted. */
    method VerifyTLS() returns (v: Verdict, ghost order: seq<Visit>)
      ensures VisitsAll(data.Value(), order) && AllVisitable(data.Value(), order)
      ensures v == VerdictInOrder(data.Value(), order, now)
    {
      hide Enumerates, VerdictInOrder, IssueVerdict, Visitable;
      var todo := data.issued.Keys;
      order := [];
      NoneVisited(data.Value(), now);
      while todo != {}
        invariant todo <= data.issued.Keys
        invariant VisitsSome(data.Value(), order, data.issued.Keys - todo) && AllVisitable(data.Value(), order)
        invariant VerdictInOrder(data.Value(), order, now) == Trusted
        decreases todo
      {
        var n := AnyOf(todo);
        ghost var bundles;
        v, bundles := VerifyIssue(n);
        IssueVisited(data.Value(), order, Visit(n, bundles), todo, now);
        todo := todo - {n};
        if v != Trusted {
          order := order + [Visit(n, bundles)] + VisitsOf(data.Value(), Listing(todo));
          return;
        }
        order := order + [Visit(n, bundles)];
      }
      assert data.issued.Keys - todo == data.issued.Keys;
      v := Trusted;
    }

    // ---- Update ----

    /**
     * Rotates what is due, cleans up what expired, and says when to come back.
     * The outcome is that of some order of verification.
     */
    method Update() returns (r: Outcome<Time>, ghost draw: Draw, ghost order: seq<Visit>)
      requires data as object != keys
      requires Coherent(data.Value()) && 0 <= now
      modifies data, keys
      ensures VisitsAll(old(data.Value()), order)
      ensures var u := UpdateInOrder(options, old(data.Value()), order, draw, now);
              && (r.Done? <==> u.Done?) && (r.Panicked? <==> u.Panicked?)
              && (r.Done? ==> data.Value() == u.value && r.value == UpdateAt(options, old(data.Value()), draw, now))
              && (r.Panicked? ==> data.Value() == old(data.Value()))
      ensures r.Done? ==> Drawn(draw, old(ActionAt(options, data.Value(), now)), old(data.issued.Keys), old(keys.next), keys.next)
      ensures old(keys.next) <= keys.next
    {
      hide FindRotationDeadlineForCA, FindRotationDeadlineForCerts, FindCleanUpDeadlineForCACerts,
        FindCleanUpDeadlineForCerts, Verifies, RotatedAll, RotatedCerts, CleanedUpCACerts, CleanedUpCerts, AllNamed, VisitsAll,
        VerdictInOrder, AllVisitable, Coherent, LeavesDrawn, HasNameless, HasRejected, HasBundle;
      ghost var before := data.Value();
      draw := Draw(0, map[]);
      order := SomeVisits(before);
      var ok := true;
      var deadlineToRotateCA := RotationDeadlineForCA();
      var deadlineToRotateCerts := RotationDeadlineForCerts();
      var rotateCA := deadlineToRotateCA <= now;
      var rotateCerts := deadlineToRotateCerts <= now;
      if !rotateCA {
        var verdict;
        verdict, order := VerifyTLS();
        TrustedInAnyOrder(before, order, now);
        if verdict == Panics {
          return Panicked, draw, order;
        }
        if verdict == Rejected {
          rotateCA := true;
        }
      }
      if rotateCA {
        ok, draw := RotateAll();
        if !ok {
          return Error("Failed rotating certificate chain"), draw, order;
        }
        deadlineToRotateCA := RotationDeadlineForCA();
        deadlineToRotateCerts := RotationDeadlineForCerts();
      } else if rotateCerts {
        ActionNeedsCA(options, before, now);
        ghost var leaves;
        ok, leaves := RotateCerts(Append);
        draw := Draw(0, leaves);
        if !ok {
          return Error("Failed rotating bundles"), draw, order;
        }
        deadlineToRotateCerts := RotationDeadlineForCerts();
        RotatedCertsKeepBundles(options, before, before.ca.keyPair.value, draw, now);
      }
      assert data.Value() == Rotated(options, before, draw, now);
      var deadlineToCleanUpCACerts := CleanUpDeadlineForCACerts();
      if deadlineToCleanUpCACerts <= now {
        CleanUpCACerts();
        deadlineToCleanUpCACerts := CleanUpDeadlineForCACerts();
      }
      var deadlineToCleanUpCerts := CleanUpDeadlineForCerts();
      if deadlineToCleanUpCerts <= now {
        CleanUpCerts();
        deadlineToCleanUpCerts := CleanUpDeadlineForCerts();
      }
      r := Done(Min4(deadlineToRotateCA, deadlineToRotateCerts, deadlineToCleanUpCACerts, deadlineToCleanUpCerts));
    }
  }

  lemma RotatedCertsKeepBundles(o: Options, d: ChainData, ca: KeyPair, draw: Draw, now: Time)
    ensures FindRotationDeadlineForCA(o, RotatedCerts(o, d, ca, draw, now, Append)) == FindRotationDeadlineForCA(o, d)
  {
    BundlesDecide(o, d, RotatedCerts(o, d, ca, draw, now, Append));
  }

  // ---- The package's entry points ----

  /** Validates the options and decodes all PEM data; what does not decode is left empty. */
  method NewChain(options: Options, data: CertificateChainData, keys: KeySource, now: Time)
    returns (r: Result<CertificateChain>)
    modifies data
    ensures r.Ok? <==> Accepted(options)
    ensures r.Ok? ==> r.value.options == WithDefaults(options) && r.value.data == data && r.value.keys == keys && r.value.now == now
    ensures data.Value() == if r.Ok? then Decoded(old(data.Value())) else old(data.Value())
  {
    hide Accepted, WithDefaults, DecodedKeyPair, CertsIn;
    var o := new OptionsVar(options);
    var valid := o.SetDefaultsAndValidate();
    if !valid {
      return Err("invalid options");
    }
    var caKey, caCerts := KeyPairPemToKeyPair(data.ca.keyPEM, data.ca.certPEM);
    data.ca := data.ca.(keyPair := if caKey.Some? && caCerts != [] then Some(KeyPair(caKey.value, Last(caCerts))) else None);
    ghost var before := data.issued;
    var todo := data.issued.Keys;
    while todo != {}
      invariant todo <= before.Keys == data.issued.Keys
      invariant data.ca == DecodedCA(old(data.ca)) && o.value == WithDefaults(options)
      invariant forall n <- before :: data.issued[n] == if n in todo then before[n] else DecodedIssue(before[n])
      decreases todo
    {
      var n := AnyOf(todo);
      todo := todo - {n};
      var issue := data.issued[n];
      var key, certs := KeyPairPemToKeyPair(issue.keyPEM, issue.certPEM);
      var bundles := ParseBundles(issue.caCertPEM);
      data.issued := data.issued[n := issue.(key := key, certs := certs, caCerts := bundles)];
    }
    assert data.issued == Decoded(old(data.Value())).issued;
    var chain := new CertificateChain(o.value, data, keys, now);
    r := Ok(chain);
  }

  method KeyPairPemToKeyPair(keyPEM: PEM, certPEM: PEM) returns (key: Option<KeyId>, certs: seq<Certificate>)
    ensures (key, certs) == DecodedKeyPair(keyPEM, certPEM)
  {
    var parsed := ParsePrivateKeyPEM(keyPEM);
    if parsed.None? || !parsed.value.RsaKey? {
      return None, [];
    }
    var failed;
    certs, failed := ParseCertsPEM(certPEM);
    if failed {
      return None, [];
    }
    key := Some(parsed.value.id);
  }

  /** Update: one step from the stored PEM data. */
  method Update(options: Options, data: CertificateChainData, keys: KeySource, now: Time)
    returns (r: Outcome<Time>, ghost draw: Draw, ghost order: seq<Visit>)
    requires data as object != keys && 0 <= now
    modifies data, keys
    ensures VisitsAll(Decoded(old(data.Value())), order)
    ensures var u := UpdateInOrder(WithDefaults(options), Decoded(old(data.Value())), order, draw, now);
            && (r.Done? <==> Accepted(options) && u.Done?)
            && (r.Panicked? <==> Accepted(options) && u.Panicked?)
            && (r.Done? ==> data.Value() == u.value)
    ensures r.Done? ==> data.Value() == Step(WithDefaults(options), old(data.Value()), draw, now)
    ensures r.Done? ==> r.value == StepAt(WithDefaults(options), old(data.Value()), draw, now)
    ensures r.Done? ==> Drawn(draw, old(ActionAt(WithDefaults(options), Decoded(data.Value()), now)), old(data.issued.Keys),
                              old(keys.next), keys.next)
    ensures old(keys.next) <= keys.next
  {
    hide Updated, UpdateAt, Decoded, Succeeds, ActionAt, Accepted, WithDefaults, VisitsAll, VerdictInOrder, Drawn, Coherent,
      FindRotationDeadlineForCA;
    draw := Draw(0, map[]);
    ghost var stored := data.Value();
    DecodedIsCoherent(stored);
    DecodedKeys(stored);
    order := SomeVisits(Decoded(stored));
    var chain := NewChain(options, data, keys, now);
    if chain.Err? {
      return Error(chain.message), draw, order;
    }
    r, draw, order := chain.value.Update();
  }

  lemma DecodedKeys(d: ChainData)
    ensures Decoded(d).issued.Keys == d.issued.Keys
  {
  }

  /** Verify: decodes the stored PEM data and checks it. */
  method Verify(options: Options, data: CertificateChainData, keys: KeySource, now: Time)
    returns (v: Verdict, ghost order: seq<Visit>)
    modifies data
    ensures VisitsAll(Decoded(old(data.Value())), order) && AllVisitable(Decoded(old(data.Value())), order)
    ensures v == if Accepted(options) then VerdictInOrder(Decoded(old(data.Value())), order, now) else Rejected
    ensures data.Value() == if Accepted(options) then Decoded(old(data.Value())) else old(data.Value())
  {
    hide Decoded, VisitsAll, AllVisitable, VerdictInOrder, Accepted;
    order := SomeVisits(Decoded(data.Value()));
    var chain := NewChain(options, data, keys, now);
    if chain.Err? {
      return Rejected, order;
    }
    v, order := chain.value.VerifyTLS();
  }
}
