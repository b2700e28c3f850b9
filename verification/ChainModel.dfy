/**
 * The certificate chain (pkg/certificate/chain) as values and the functions
 * that one update composes: decoding, deadlines, rotation, clean-up and
 * verification. The classes of module Chain are proved against these.
 */
module ChainModel {
  import opened Common
  import opened Triple
  import opened ChainOptions
  import FloatDuration

  // ---- Data ----

  /** An issued certificate: its PEM data, and after `key` what that decodes to. */
  datatype CertificateIssue = CertificateIssue(
    name: string,
    hostnames: seq<string>,
    keyPEM: PEM,
    certPEM: PEM,
    caCertPEM: map<string, PEM>,
    key: Option<KeyId>,
    certs: seq<Certificate>,
    caCerts: map<string, seq<Certificate>>)

  datatype CA = CA(name: string, keyPEM: PEM, certPEM: PEM, keyPair: Option<KeyPair>)

  datatype ChainData = ChainData(issued: map<string, CertificateIssue>, ca: CA)

  function LastCert(certs: seq<Certificate>): Option<Certificate> {
    if certs == [] then None else Some(Last(certs))
  }

  function CACert(d: ChainData): Option<Certificate> {
    if d.ca.keyPair.None? then None else Some(d.ca.keyPair.value.cert)
  }

  /** A missing bundle reads as an empty list. */
  function Bundle(i: CertificateIssue, b: string): seq<Certificate> {
    if b in i.caCerts then i.caCerts[b] else []
  }

  predicate AllNamed(d: ChainData) {
    forall n <- d.issued :: d.issued[n].name != ""
  }

  // ---- Decoding ----

  /** Either both the RSA key and the certificates decode, or neither is kept. */
  function DecodedKeyPair(keyPEM: PEM, certPEM: PEM): (Option<KeyId>, seq<Certificate>) {
    match ParsedKey(keyPEM)
    case Some(RsaKey(k)) => if ParsesAsCerts(certPEM) then (Some(k), CertsIn(certPEM)) else (None, [])
    case _ => (None, [])
  }

  function DecodedIssue(i: CertificateIssue): CertificateIssue {
    var (key, certs) := DecodedKeyPair(i.keyPEM, i.certPEM);
    i.(key := key, certs := certs, caCerts := map b <- i.caCertPEM :: CertsIn(i.caCertPEM[b]))
  }

  function DecodedCA(ca: CA): CA {
    var (key, certs) := DecodedKeyPair(ca.keyPEM, ca.certPEM);
    ca.(keyPair := if key.Some? && certs != [] then Some(KeyPair(key.value, Last(certs))) else None)
  }

  function Decoded(d: ChainData): ChainData {
    ChainData(map n <- d.issued :: DecodedIssue(d.issued[n]), DecodedCA(d.ca))
  }

  // ---- Mutators ----

  function WithBundle(i: CertificateIssue, b: string, certs: seq<Certificate>): CertificateIssue {
    i.(caCerts := i.caCerts[b := certs], caCertPEM := i.caCertPEM[b := EncodedCerts(certs)])
  }

  function WithCACert(i: CertificateIssue, cert: Certificate): CertificateIssue {
    i.(caCerts := map b <- i.caCerts :: i.caCerts[b] + [cert],
       caCertPEM := i.caCertPEM + map b <- i.caCerts :: EncodedCerts(i.caCerts[b] + [cert]))
  }

  function WithKeyReset(i: CertificateIssue, pair: KeyPair): CertificateIssue {
    i.(key := Some(pair.key), certs := [pair.cert],
       keyPEM := EncodePrivateKeyPEM(pair.key), certPEM := EncodeCertPEM(pair.cert))
  }

  function WithKeyAppended(i: CertificateIssue, pair: KeyPair): CertificateIssue {
    i.(key := Some(pair.key), certs := i.certs + [pair.cert],
       keyPEM := EncodePrivateKeyPEM(pair.key), certPEM := EncodedCerts(i.certs + [pair.cert]))
  }

  function WithCerts(i: CertificateIssue, certs: seq<Certificate>): CertificateIssue {
    i.(certs := certs, certPEM := EncodedCerts(certs))
  }

  function WithCAKeyPair(d: ChainData, pair: KeyPair): ChainData {
    ChainData(
      map n <- d.issued :: WithCACert(d.issued[n], pair.cert),
      d.ca.(keyPair := Some(pair), keyPEM := EncodePrivateKeyPEM(pair.key), certPEM := EncodeCertPEM(pair.cert)))
  }

  // ---- Rotation ----

  /** The keys one update draws, should it rotate. */
  datatype Draw = Draw(ca: KeyId, leaves: map<string, KeyId>)

  function LeafKey(draw: Draw, n: string): KeyId {
    if n in draw.leaves then draw.leaves[n] else 0
  }

  datatype Mode = Reset | Append

  function RotatedIssue(o: Options, ca: KeyPair, i: CertificateIssue, key: KeyId, now: Time, mode: Mode): CertificateIssue {
    var pair := SignedKeyPair(ca, i.name, i.hostnames, key, o.certRotateInterval, now);
    if mode == Reset then WithKeyReset(i, pair) else WithKeyAppended(i, pair)
  }

  function RotatedCerts(o: Options, d: ChainData, ca: KeyPair, draw: Draw, now: Time, mode: Mode): ChainData {
    d.(issued := map n <- d.issued :: RotatedIssue(o, ca, d.issued[n], LeafKey(draw, n), now, mode))
  }

  function RotatedAll(o: Options, d: ChainData, draw: Draw, now: Time): ChainData {
    var pair := NewCA(d.ca.name, draw.ca, o.caRotateInterval, now);
    RotatedCerts(o, WithCAKeyPair(d, pair), pair, draw, now, Reset)
  }

  // ---- Clean-up ----

  /** The certificates that expire strictly after now, in order. */
  function Unexpired(certs: seq<Certificate>, now: Time): seq<Certificate> {
    if certs == [] then []
    else if certs[0].NotAfter() > now then [certs[0]] + Unexpired(certs[1..], now)
    else Unexpired(certs[1..], now)
  }

  /** A list without overlap stays as it is. */
  function CleanedUp(certs: seq<Certificate>, now: Time): seq<Certificate> {
    if |certs| <= 1 then certs else Unexpired(certs, now)
  }

  function WithBundlesCleanedUp(i: CertificateIssue, now: Time): CertificateIssue {
    i.(caCerts := map b <- i.caCerts :: CleanedUp(i.caCerts[b], now),
       caCertPEM := i.caCertPEM + map b <- i.caCerts :: EncodedCerts(CleanedUp(i.caCerts[b], now)))
  }

  function CleanedUpCACerts(d: ChainData, now: Time): ChainData {
    d.(issued := map n <- d.issued :: WithBundlesCleanedUp(d.issued[n], now))
  }

  function CleanedUpCerts(d: ChainData, now: Time): ChainData {
    d.(issued := map n <- d.issued :: WithCerts(d.issued[n], CleanedUp(d.issued[n].certs, now)))
  }

  // ---- Deadlines ----

  /** The earliest of some moments, the zero time when there is none. */
  ghost function MinTime(times: set<int>): (t: int)
    ensures times == {} ==> t == 0
    ensures times != {} ==> t in times
    ensures forall e <- times :: t <= e
  {
    if times == {} then 0
    else
      var e := SomeOf(times);
      var rest := times - {e};
      if rest == {} then
        assert times == {e};
        e
      else
        var m := MinTime(rest);
        assert times == rest + {e};
        if e < m then e else m
  }

  function NextRotationDeadline(cert: Certificate, overlap: Time): Time {
    cert.NotBefore() + FloatDuration.Subtract(cert.NotAfter() - cert.NotBefore(), overlap)
  }

  predicate HasEmptyBundle(d: ChainData) {
    exists n <- d.issued, b <- d.issued[n].caCerts :: d.issued[n].caCerts[b] == []
  }

  predicate HasBundle(d: ChainData) {
    exists n <- d.issued :: |d.issued[n].caCerts| > 0
  }

  ghost function CADeadlines(o: Options, d: ChainData): set<Time> {
    set n, b | n in d.issued && b in d.issued[n].caCerts && d.issued[n].caCerts[b] != [] ::
      NextRotationDeadline(Last(d.issued[n].caCerts[b]), o.caOverlapInterval)
  }

  ghost function FindRotationDeadlineForCA(o: Options, d: ChainData): Time {
    if HasEmptyBundle(d) then 0 else MinTime(CADeadlines(o, d))
  }

  ghost function CertDeadlines(o: Options, d: ChainData): set<Time> {
    set n | n in d.issued && d.issued[n].certs != [] ::
      NextRotationDeadline(Last(d.issued[n].certs), o.certOverlapInterval)
  }

  ghost function FindRotationDeadlineForCerts(o: Options, d: ChainData): Time {
    if exists n <- d.issued :: d.issued[n].certs == [] then 0 else MinTime(CertDeadlines(o, d))
  }

  ghost function CAExpirations(d: ChainData): set<Time> {
    set n, b, j | n in d.issued && b in d.issued[n].caCerts && 0 <= j < |d.issued[n].caCerts[b]| ::
      d.issued[n].caCerts[b][j].NotAfter()
  }

  ghost function FindCleanUpDeadlineForCACerts(d: ChainData): Time {
    MinTime(CAExpirations(d))
  }

  ghost function CertExpirations(d: ChainData): set<Time> {
    set n, j | n in d.issued && 0 <= j < |d.issued[n].certs| :: d.issued[n].certs[j].NotAfter()
  }

  ghost function FindCleanUpDeadlineForCerts(d: ChainData): Time {
    MinTime(CertExpirations(d))
  }

  // ---- Verification ----

  /** Every bundle ends with the CA certificate, and the first certificate verifies against it. */
  ghost predicate Verifies(d: ChainData, now: Time) {
    forall n <- d.issued, b <- d.issued[n].caCertPEM ::
      && LastCert(Bundle(d.issued[n], b)) == CACert(d)
      && TLSVerifies(d.issued[n].certPEM, d.issued[n].keyPEM, d.issued[n].caCertPEM[b], now)
  }

  // ---- Update ----

  datatype Action = RotateAll | RotateCerts | Keep

  ghost function ActionAt(o: Options, d: ChainData, now: Time): Action {
    if FindRotationDeadlineForCA(o, d) <= now || !Verifies(d, now) then RotateAll
    else if FindRotationDeadlineForCerts(o, d) <= now then RotateCerts
    else Keep
  }

  /** Only an issue without a common name makes a rotation fail. */
  ghost predicate Succeeds(o: Options, d: ChainData, now: Time) {
    ActionAt(o, d, now) == Keep || AllNamed(d)
  }

  /** Decoded data after the rotations of one update, */
  ghost function Rotated(o: Options, d: ChainData, draw: Draw, now: Time): ChainData {
    var action := ActionAt(o, d, now);
    if action == RotateAll then RotatedAll(o, d, draw, now)
    else if action == RotateCerts && d.ca.keyPair.Some? then
      RotatedCerts(o, d, d.ca.keyPair.value, draw, now, Append)
    else d
  }

  /** after cleaning up the bundles when one of their certificates expired, */
  ghost function CACleaned(d: ChainData, now: Time): ChainData {
    if FindCleanUpDeadlineForCACerts(d) <= now then CleanedUpCACerts(d, now) else d
  }

  /** and after cleaning up the issued certificates when one of them expired. */
  ghost function CertsCleaned(d: ChainData, now: Time): ChainData {
    if FindCleanUpDeadlineForCerts(d) <= now then CleanedUpCerts(d, now) else d
  }

  ghost function Updated(o: Options, d: ChainData, draw: Draw, now: Time): ChainData {
    CertsCleaned(CACleaned(Rotated(o, d, draw, now), now), now)
  }

  /**
   * The returned time: the rotation deadlines are those found before cleaning
   * up, the clean-up deadlines those found after it.
   */
  ghost function UpdateAt(o: Options, d: ChainData, draw: Draw, now: Time): Time {
    var rotated := Rotated(o, d, draw, now);
    var caCleaned := CACleaned(rotated, now);
    var cleaned := CertsCleaned(caCleaned, now);
    Min4(FindRotationDeadlineForCA(o, rotated), FindRotationDeadlineForCerts(o, rotated),
         FindCleanUpDeadlineForCACerts(caCleaned), FindCleanUpDeadlineForCerts(cleaned))
  }

  function Min(a: Time, b: Time): Time {
    if b < a then b else a
  }

  function Min4(a: Time, b: Time, c: Time, d: Time): Time {
    Min(Min(Min(a, b), c), d)
  }

  /** One Update: it restarts from the PEM data. */
  ghost function Step(o: Options, d: ChainData, draw: Draw, now: Time): ChainData {
    Updated(o, Decoded(d), draw, now)
  }

  ghost function StepAt(o: Options, d: ChainData, draw: Draw, now: Time): Time {
    UpdateAt(o, Decoded(d), draw, now)
  }
}
