/**
 * Keys, certificates and PEM data (pkg/certificate/triple). Certificates are
 * abstract records, and PEM data is the sequence of blocks a decoder finds in
 * it (section 5 of RFC 7468): text that is no block disappears.
 */
module Triple {
  import opened Common

  const SECOND: int := 1_000_000_000

  /** A moment or a duration, in nanoseconds; the zero moment is the zero time.Time. */
  type Time = int

  /** A key pair, by the draw that produced it. */
  type KeyId = nat

  datatype PrivateKey =
    | RsaKey(id: KeyId)
    | EcKey(id: KeyId)
    | Ed25519Key(id: KeyId)

  /**
   * An X.509 certificate. Its validity is held in whole seconds, the precision
   * of its encoding.
   */
  datatype Certificate = Certificate(
    subject: string,
    publicKey: KeyId,
    issuer: string,
    issuerKey: KeyId,
    dnsNames: seq<string>,
    isCA: bool,
    notBeforeSeconds: int,
    notAfterSeconds: int)
  {
    function NotBefore(): Time { notBeforeSeconds * SECOND }

    function NotAfter(): Time { notAfterSeconds * SECOND }

    /** Both ends belong to the validity period (section 4.1.2.5 of RFC 5280). */
    predicate ValidAt(now: Time) {
      NotBefore() <= now <= NotAfter()
    }
  }

  datatype KeyPair = KeyPair(key: KeyId, cert: Certificate)

  // ---- Issuing ----

  /** The encoding of a moment in a certificate drops the fraction of a second. */
  function Seconds(t: Time): (s: int)
    ensures s * SECOND <= t < (s + 1) * SECOND
  {
    t / SECOND
  }

  function NewCA(name: string, key: KeyId, duration: Time, now: Time): KeyPair {
    KeyPair(key, Certificate(name, key, name, key, [], true, Seconds(now), Seconds(now + duration)))
  }

  /** The validity of a signed certificate starts with the CA certificate's. */
  function SignedKeyPair(ca: KeyPair, commonName: string, hostnames: seq<string>, key: KeyId,
                         duration: Time, now: Time): KeyPair {
    KeyPair(key, Certificate(commonName, key, ca.cert.subject, ca.key, hostnames, false,
                             ca.cert.notBeforeSeconds, Seconds(now + duration)))
  }

  function NewServerKeyPair(ca: KeyPair, commonName: string, hostnames: seq<string>, key: KeyId,
                            duration: Time, now: Time): Result<KeyPair> {
    if commonName == "" then Err("must specify a CommonName")
    else Ok(SignedKeyPair(ca, commonName, hostnames, key, duration, now))
  }

  // ---- PEM ----

  datatype BlockType =
    | CertificateBlock
    | RsaPrivateKeyBlock
    | EcPrivateKeyBlock
    | PrivateKeyBlock
    | OtherBlock(name: string)

  /** The DER content of a block: what it parses as, if anything. */
  datatype Der =
    | CertificateDer(cert: Certificate)
    | Pkcs1Der(rsa: KeyId)
    | Sec1Der(ec: KeyId)
    | Pkcs8Der(key: PrivateKey)
    | OtherDer(tag: int)

  datatype Block = Block(blockType: BlockType, headers: nat, der: Der)

  type PEM = seq<Block>

  function EncodePrivateKeyPEM(key: KeyId): PEM {
    [Block(RsaPrivateKeyBlock, 0, Pkcs1Der(key))]
  }

  function EncodeCertPEM(cert: Certificate): PEM {
    [Block(CertificateBlock, 0, CertificateDer(cert))]
  }

  function EncodedCerts(certs: seq<Certificate>): PEM {
    if certs == [] then [] else EncodeCertPEM(certs[0]) + EncodedCerts(certs[1..])
  }

  /** Blocks that claim to be a certificate, without extra headers. */
  predicate ClaimsCertificate(block: Block) {
    block.blockType == CertificateBlock && block.headers == 0
  }

  predicate Malformed(block: Block) {
    ClaimsCertificate(block) && !block.der.CertificateDer?
  }

  /** The certificates found before the first malformed certificate block. */
  function CertsIn(pem: PEM): seq<Certificate> {
    if pem == [] || Malformed(pem[0]) then []
    else if ClaimsCertificate(pem[0]) then [pem[0].der.cert] + CertsIn(pem[1..])
    else CertsIn(pem[1..])
  }

  /** ParseCertsPEM reports no error: something was found and nothing is malformed. */
  predicate ParsesAsCerts(pem: PEM) {
    CertsIn(pem) != [] && forall i :: 0 <= i < |pem| ==> !Malformed(pem[i])
  }

  function KeyIn(block: Block): Option<PrivateKey> {
    match (block.blockType, block.der)
    case (EcPrivateKeyBlock, Sec1Der(k)) => Some(EcKey(k))
    case (RsaPrivateKeyBlock, Pkcs1Der(k)) => Some(RsaKey(k))
    case (PrivateKeyBlock, Pkcs8Der(k)) => Some(k)
    case _ => None
  }

  /** The first block that is a private key, whatever surrounds it. */
  function ParsedKey(pem: PEM): Option<PrivateKey> {
    if pem == [] then None
    else if KeyIn(pem[0]).Some? then KeyIn(pem[0])
    else ParsedKey(pem[1..])
  }

  /** A certificate pool takes every well-formed certificate block and skips the others. */
  ghost predicate InPool(cert: Certificate, pem: PEM) {
    exists i :: 0 <= i < |pem| && ClaimsCertificate(pem[i]) && pem[i].der == CertificateDer(cert)
  }

  method EncodeCertsPEM(certs: seq<Certificate>) returns (certsPEM: PEM)
    ensures certsPEM == EncodedCerts(certs)
  {
    certsPEM := [];
    for i := 0 to |certs|
      invariant certsPEM + EncodedCerts(certs[i..]) == EncodedCerts(certs)
    {
      certsPEM := certsPEM + EncodeCertPEM(certs[i]);
      assert certs[i..][1..] == certs[i + 1..];
    }
  }

  method ParseCertsPEM(pem: PEM) returns (certs: seq<Certificate>, failed: bool)
    ensures certs == CertsIn(pem)
    ensures failed <==> !ParsesAsCerts(pem)
  {
    var rest := pem;
    var ok := false;
    ghost var i := 0;
    certs := [];
    while rest != []
      invariant 0 <= i <= |pem| && rest == pem[i..]
      invariant forall j :: 0 <= j < i ==> !Malformed(pem[j])
      invariant certs + CertsIn(rest) == CertsIn(pem)
      invariant ok <==> certs != []
      decreases |rest|
    {
      var block := rest[0];
      assert block == pem[i];
      if Malformed(block) {
        return certs, true;
      }
      rest := rest[1..];
      i := i + 1;
      if !ClaimsCertificate(block) {
        continue;
      }
      certs := certs + [block.der.cert];
      ok := true;
    }
    failed := !ok;
  }

  /** The content of a block is a private key of the form that its type announces. */
  predicate HoldsKey(block: Block) {
    || (block.blockType == RsaPrivateKeyBlock && block.der.Pkcs1Der?)
    || (block.blockType == EcPrivateKeyBlock && block.der.Sec1Der?)
    || (block.blockType == PrivateKeyBlock && block.der.Pkcs8Der?)
  }

  /** A key is found exactly if some block holds one, and it is that of the first such block. */
  lemma {:induction false} ParsedKeyIs(pem: PEM)
    ensures ParsedKey(pem).Some? <==> exists i :: 0 <= i < |pem| && HoldsKey(pem[i])
    ensures forall i :: 0 <= i < |pem| && HoldsKey(pem[i]) && (forall j :: 0 <= j < i ==> !HoldsKey(pem[j])) ==>
              ParsedKey(pem) == Some(match pem[i].der
                                     case Pkcs1Der(k) => RsaKey(k)
                                     case Sec1Der(k) => EcKey(k)
                                     case Pkcs8Der(k) => k
                                     case _ => RsaKey(0))
  {
    if pem != [] {
      ParsedKeyIs(pem[1..]);
      if KeyIn(pem[0]).Some? {
        assert HoldsKey(pem[0]);
      } else {
        assert forall i :: 1 <= i < |pem| ==> pem[i] == pem[1..][i - 1];
        assert forall i :: 0 <= i < |pem[1..]| ==> pem[1..][i] == pem[i + 1];
        forall i | 0 <= i < |pem| && HoldsKey(pem[i]) && (forall j :: 0 <= j < i ==> !HoldsKey(pem[j]))
          ensures 1 <= i && HoldsKey(pem[1..][i - 1]) && (forall j :: 0 <= j < i - 1 ==> !HoldsKey(pem[1..][j]))
        {
        }
      }
    }
  }

  method ParsePrivateKeyPEM(pem: PEM) returns (key: Option<PrivateKey>)
    ensures key == ParsedKey(pem)
    ensures key.Some? <==> exists i :: 0 <= i < |pem| && HoldsKey(pem[i])
  {
    ParsedKeyIs(pem);
    var rest := pem;
    while rest != []
      invariant ParsedKey(rest) == ParsedKey(pem)
      decreases |rest|
    {
      var block := rest[0];
      rest := rest[1..];
      if KeyIn(block).Some? {
        return KeyIn(block);
      }
    }
    key := None;
  }

  /** One block more adds its certificate, if it is one and nothing before it is malformed, and else nothing. */
  lemma {:induction false} CertsInMore(pem: PEM, block: Block)
    ensures CertsIn(pem + [block]) ==
              if (exists i :: 0 <= i < |pem| && pem[i].blockType == CertificateBlock && pem[i].headers == 0 && !pem[i].der.CertificateDer?)
                 || block.blockType != CertificateBlock || block.headers != 0 || !block.der.CertificateDer?
              then CertsIn(pem)
              else CertsIn(pem) + [block.der.cert]
  {
    if pem == [] {
      assert [] + [block] == [block] && [block][1..] == [];
    } else {
      var rest := pem[1..];
      assert (pem + [block])[1..] == rest + [block];
      assert forall i :: 1 <= i < |pem| ==> pem[i] == rest[i - 1];
      assert forall i :: 0 <= i < |rest| ==> rest[i] == pem[i + 1];
      CertsInMore(rest, block);
    }
  }

  /** Certificate data parse exactly if there is a certificate block, and no such block holds anything else. */
  lemma ParsesMeans(pem: PEM)
    ensures ParsesAsCerts(pem) <==>
              && (exists c :: Block(CertificateBlock, 0, CertificateDer(c)) in pem)
              && forall b <- pem :: b.blockType == CertificateBlock && b.headers == 0 ==> b.der.CertificateDer?
  {
    if i :| 0 <= i < |pem| && Malformed(pem[i]) {
      assert pem[i] in pem;
    } else {
      forall c ensures c in CertsIn(pem) <==> Block(CertificateBlock, 0, CertificateDer(c)) in pem {
        FoundIsBlock(pem, c);
      }
      if CertsIn(pem) != [] {
        assert CertsIn(pem)[0] in CertsIn(pem);
      }
    }
  }

  /** What is found are blocks of the data, without headers and of the right type. */
  lemma {:induction false} FoundIsBlock(pem: PEM, cert: Certificate)
    ensures cert in CertsIn(pem) ==> Block(CertificateBlock, 0, CertificateDer(cert)) in pem
    ensures (forall b <- pem :: !Malformed(b)) ==>
              (cert in CertsIn(pem) <==> Block(CertificateBlock, 0, CertificateDer(cert)) in pem)
  {
    if pem != [] {
      FoundIsBlock(pem[1..], cert);
      assert pem == [pem[0]] + pem[1..];
    }
  }

  lemma {:induction false} EncodedCertsAt(certs: seq<Certificate>)
    ensures |EncodedCerts(certs)| == |certs|
    ensures forall i :: 0 <= i < |certs| ==> EncodedCerts(certs)[i] == EncodeCertPEM(certs[i])[0]
  {
    if certs != [] {
      EncodedCertsAt(certs[1..]);
    }
  }

  /** ParseCertsPEM(EncodeCertsPEM(xs)) == xs, without error unless xs is empty. */
  lemma {:induction false} ParseAfterEncode(certs: seq<Certificate>)
    ensures CertsIn(EncodedCerts(certs)) == certs
    ensures ParsesAsCerts(EncodedCerts(certs)) <==> certs != []
  {
    EncodedCertsAt(certs);
    if certs != [] {
      ParseAfterEncode(certs[1..]);
    }
  }

  lemma PoolAfterEncode(certs: seq<Certificate>, cert: Certificate)
    ensures InPool(cert, EncodedCerts(certs)) <==> cert in certs
  {
    EncodedCertsAt(certs);
    if cert in certs {
      var i :| 0 <= i < |certs| && certs[i] == cert;
      assert EncodedCerts(certs)[i].der == CertificateDer(cert);
    }
  }

  // ---- Verification ----

  /** The path of length two from a leaf to a root (section 6.1.3 of RFC 5280). */
  predicate Signs(root: Certificate, leaf: Certificate, now: Time) {
    && root.isCA
    && root.publicKey == leaf.issuerKey
    && root.subject == leaf.issuer
    && root.ValidAt(now)
    && leaf.ValidAt(now)
  }

  /** A root vouches for what it signed, and a member of the pool for itself while it is valid. */
  predicate Vouches(root: Certificate, leaf: Certificate, now: Time) {
    Signs(root, leaf, now) || (root == leaf && leaf.ValidAt(now))
  }

  ghost predicate VerifiesAgainst(leaf: Certificate, bundle: PEM, now: Time) {
    exists root :: InPool(root, bundle) && Vouches(root, leaf, now)
  }

  /**
   * The key parses, the certificates parse, and the first of them names a host
   * and verifies against the bundle. Nothing compares the key with it.
   */
  ghost predicate TLSVerifies(certsPEM: PEM, keyPEM: PEM, bundle: PEM, now: Time) {
    && ParsedKey(keyPEM).Some?
    && ParsesAsCerts(certsPEM)
    && CertsIn(certsPEM)[0].dnsNames != []
    && VerifiesAgainst(CertsIn(certsPEM)[0], bundle, now)
  }

  lemma TLSNeedsValidLeaf(certsPEM: PEM, keyPEM: PEM, bundle: PEM, now: Time)
    requires TLSVerifies(certsPEM, keyPEM, bundle, now)
    ensures CertsIn(certsPEM) != [] && CertsIn(certsPEM)[0].ValidAt(now)
  {
    hide InPool;
  }

  /**
   * With a key, certificates and a root at hand the Go code takes the first DNS
   * name of the first certificate, and panics if there is none.
   */
  ghost predicate NamelessAtHand(certsPEM: PEM, keyPEM: PEM, bundle: PEM) {
    && ParsedKey(keyPEM).Some?
    && ParsesAsCerts(certsPEM)
    && (exists root :: InPool(root, bundle))
    && CertsIn(certsPEM)[0].dnsNames == []
  }

  datatype Verdict = Trusted | Rejected | Panics

  ghost function TLSVerdict(certsPEM: PEM, keyPEM: PEM, bundle: PEM, now: Time): Verdict {
    if NamelessAtHand(certsPEM, keyPEM, bundle) then Panics
    else if TLSVerifies(certsPEM, keyPEM, bundle, now) then Trusted
    else Rejected
  }

  /** AppendCertsFromPEM: the well-formed certificates of a bundle, whatever surrounds them. */
  method CertPool(bundle: PEM) returns (pool: seq<Certificate>)
    ensures forall c :: c in pool <==> InPool(c, bundle)
  {
    pool := [];
    for i := 0 to |bundle|
      invariant forall c :: c in pool <==>
                  exists j :: 0 <= j < i && ClaimsCertificate(bundle[j]) && bundle[j].der == CertificateDer(c)
    {
      if ClaimsCertificate(bundle[i]) && bundle[i].der.CertificateDer? {
        pool := pool + [bundle[i].der.cert];
      }
    }
  }

  lemma PoolIsBlocks(cert: Certificate, pem: PEM)
    ensures InPool(cert, pem) <==> Block(CertificateBlock, 0, CertificateDer(cert)) in pem
  {
  }

  /**
   * A pair is trusted exactly if some block of the key data holds a private key,
   * the certificate data hold certificates and no malformed ones, and the first
   * of these names a host, is within its validity, and either was signed by a
   * CA certificate in the bundle that is within its own, or is in the bundle.
   */
  lemma TrustedMeans(certsPEM: PEM, keyPEM: PEM, bundle: PEM, now: Time)
    ensures TLSVerdict(certsPEM, keyPEM, bundle, now) == Trusted <==>
              && (exists i :: 0 <= i < |keyPEM| && HoldsKey(keyPEM[i]))
              && (forall b <- certsPEM :: b.blockType == CertificateBlock && b.headers == 0 ==> b.der.CertificateDer?)
              && CertsIn(certsPEM) != []
              && var leaf := CertsIn(certsPEM)[0];
                 && leaf.dnsNames != []
                 && leaf.notBeforeSeconds * SECOND <= now <= leaf.notAfterSeconds * SECOND
                 && exists root :: Block(CertificateBlock, 0, CertificateDer(root)) in bundle &&
                      (root == leaf
                       || (root.isCA && root.publicKey == leaf.issuerKey && root.subject == leaf.issuer
                           && root.notBeforeSeconds * SECOND <= now <= root.notAfterSeconds * SECOND))
  {
    hide CertsIn, ParsedKey, InPool;
    ParsedKeyIs(keyPEM);
    ParsesMeans(certsPEM);
    if CertsIn(certsPEM) != [] {
      var leaf := CertsIn(certsPEM)[0];
      forall root ensures InPool(root, bundle) <==> Block(CertificateBlock, 0, CertificateDer(root)) in bundle {
        PoolIsBlocks(root, bundle);
      }
    }
  }

  method VerifyTLS(certsPEM: PEM, keyPEM: PEM, bundle: PEM, now: Time) returns (v: Verdict)
    ensures v == TLSVerdict(certsPEM, keyPEM, bundle, now)
    ensures v != Rejected ==> exists i :: 0 <= i < |keyPEM| && HoldsKey(keyPEM[i])
  {
    hide InPool, HoldsKey;
    var key := ParsePrivateKeyPEM(keyPEM);
    if key.None? {
      return Rejected;
    }
    var certs, failed := ParseCertsPEM(certsPEM);
    if failed {
      return Rejected;
    }
    var pool := CertPool(bundle);
    if pool == [] {
      return Rejected;
    }
    assert InPool(pool[0], bundle);
    if certs[0].dnsNames == [] {
      return Panics;
    }
    for i := 0 to |pool|
      invariant forall j :: 0 <= j < i ==> !Vouches(pool[j], certs[0], now)
    {
      if Vouches(pool[i], certs[0], now) {
        assert InPool(pool[i], bundle);
        return Trusted;
      }
    }
    v := Rejected;
  }

  lemma VerifiesAgainstEncoded(leaf: Certificate, roots: seq<Certificate>, now: Time)
    ensures VerifiesAgainst(leaf, EncodedCerts(roots), now) <==> exists root :: root in roots && Vouches(root, leaf, now)
  {
    hide InPool, Vouches, EncodedCerts;
    forall root ensures InPool(root, EncodedCerts(roots)) <==> root in roots {
      PoolAfterEncode(roots, root);
    }
    if root :| root in roots && Vouches(root, leaf, now) {
      assert InPool(root, EncodedCerts(roots));
    }
  }
}
