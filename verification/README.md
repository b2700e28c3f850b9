# Webhook certificates: rotation and reconciliation

A Dafny model of the certificate management of kube-admission-webhook, with
proofs. `dafny verify dfyconfig.toml` checks all of it.

A manager keeps a chain of certificates for the services behind a set of
webhooks: a CA key pair, and for every service an issue with a key, a list of
certificates (the last one current, the earlier ones overlapping) and, for every
webhook that calls the service, a bundle of CA certificates. The chain lives in
Kubernetes objects: secrets hold the keys and certificates, and webhook
configurations the bundles. A reconcile reads these objects, updates the chain
and writes back what changed. An update rotates the CA with everything, or only
the issued certificates, or nothing; it removes expired certificates, and it
returns the time of the next update.

What is proved, in short:

- Over whole runs, however late the updates: certificates stay trusted for as
  long as they and their signer last, overlaps are bounded, all services move in
  lockstep, and the returned time is exactly the next time at which an update has
  something to do.
- From arbitrary stored data: one update repairs a chain that fails
  verification unless it panics over a certificate without DNS names, and for
  which options the next update always lies ahead.
- Against a store that others change at any moment: reading terminates in any
  order of iteration and never misses an issue, no update of others is lost,
  nothing but bundles and pairs of keys and certificates is changed, and no
  webhook loses a CA certificate before it expires.
- Against a store that nobody else changes: reading gives the chain that a
  comprehension over the objects describes, what is written is read again, a
  reconcile repairs, it writes nothing before the next deadline, and any number
  of reconciles take the cluster through a run, so that a certificate once given
  to a service is trusted by its webhooks for as long as it and its signer last.
  `Controller` calls the manager's methods and has all this from their contracts.

## How the model is built

Each file is one module. `Triple`, `ChainOptions`, `FloatDuration`, `ChainModel`
and `Configuration` hold the data and the functions that say what one operation
computes; `Chain`, `ApiServer` and `CertificateManager` hold the classes and the
methods that run, with their loops, each proved against those functions; the
others hold the properties. `ChainFacts`, `ChainVerdicts`, `ChainInvariant`,
`ChainPrediction`, `ChainRepair`, `ChainMargin` and `ChainRest` are about one
update, `ChainRuns`, `ChainLockstep` and `ChainOverlap` about runs, and
`ChainSamples` has concrete chains. `Reading`, `Sharing`, `Worklist`, `Writing`,
`Hosting`, `Reconciling`, `ReconcileRuns` and `ManagerSteps` are about the objects
in Kubernetes, `Delivery` says what they come to webhook by webhook and entry by
entry, and `Controller` calls the manager.

Time is a whole number of nanoseconds, stands still during one update, and is a
parameter. Certificates hold their validity in whole seconds, the precision of
their encoding. Keys come from a counter. PEM data is the sequence of blocks that
a decoder finds. A leaf verifies against a root that is a CA, holds the issuer
key and subject, and is valid like the leaf, both ends included (section 4.1.2.5
and section 6.1.3 of RFC 5280), or when it is valid and itself in the root pool.
Verification and updates have three outcomes, the third being the panic over a
certificate without DNS names. The loops of verification range over maps, so
which outcome a chain has can depend on their order; the methods return the order
they took.

The API server gives every write a resource version of its own. Its schedule
says what others do before each call and which calls fail; it is arbitrary
unless a statement calls it quiet. Its log records the objects read, written and
replaced.

Hypotheses that recur, all of which a caller could check: `Workable` (options in
range, rotating by the second at the fastest, intervals within the reach of a
duration), `MeasurableLists` (stored validities are within that reach),
`WholeSeconds` for the bounds on overlaps, `HasBundle` (some webhook names a
service), `Sound` (references are to webhooks, and configurations that share a
host name or a bundle name agree; `Reading.LabelsAreSound` gives sufficient
conditions) and `Unmistakable` (no two webhook objects can have a bundle name in
common).

Where the code does less than one might expect:

- The key of an issue matches the last certificate, while verification looks at
  the first one.
- Verification accepts a certificate at the moment it expires, and cleaning up
  removes it at that moment. So an update need not leave a verified chain behind
  when the stored one was not its own (`ChainSamples.UpdateMayLeaveUnverified`).
  `ChainRest.StaysVerified` gives the exact condition on the data before the
  update, and `Reconciling.SettledVerifies` says that the chain's own data meet it.
- A certificate without DNS names that is first in its list makes verification
  panic, so a chain holding one is not repaired until its CA falls due
  (`ChainSamples.EveryUpdatePanics`, `ChainRepair.HealsUnlessPanic`).
- A second between overlap and interval does not always put the next rotation
  after now, because float64 rounds the overlap (`ChainMargin.ASecondMayNotDo`).
- Bundle names are joined with hyphens and can collide; a bundle can then lose a
  certificate that only it had (`Worklist.CollidingBundles` says exactly when).
- An update with no bundle at all rotates everything every time.
- Validation lets negative overlaps pass.
- The object map is keyed by pointers, so the test whether a secret is on the
  list already never succeeds. The comment in the source says a reference is
  added if not already there; the code adds one each time. An undisturbed
  reconcile that rotates anything fails if and only if two configurations share a
  service, or a webhook with configurations is listed twice.

## Model

| member | source | states |
|---|---|---|
| ChainRuns.TrustContinuity | pkg/certificate/chain/chain.go:100-111 | In any run, a certificate listed after update i and signed by the CA of then verifies against every bundle of its issue after any later update j, while it and its signer last |
| ChainRuns.RunKeepsCA | pkg/certificate/chain/cleanup.go:7-42 | A CA certificate found in a bundle after some update of a run stays in it through every later update before its expiration |
| ChainRuns.UpdateKeepsCA | pkg/certificate/chain/chain.go:166-241 | No update, from any data and in any branch, takes an unexpired certificate out of a bundle |
| ChainRepair.UpdatedBundle | pkg/certificate/chain/chain.go:186-214 | From any data, an update makes of every bundle its unexpired certificates in order, followed by the new CA certificate if everything rotates |
| ChainOverlap.BoundedOverlap | pkg/certificate/chain/chain.go:166-228 | After every update of a run from blank data, however late: n bundle certificates satisfy (n-1)*min(R-O, Rc) < R and m issued certificates (m-1)*(Rc-Oc) < Rc |
| ChainOverlap.RotationsApart | pkg/certificate/chain/chain.go:170-206 | A CA is never replaced earlier than min(R-O, Rc) after the start of its validity, whatever the times of the updates |
| ChainOverlap.RunSpaced | pkg/certificate/chain/chain.go:166-228 | The invariant behind the bounds: in every run CA certificates start, and issued certificates end, at least their gap apart, and all are unexpired |
| ChainOverlap.PunctualRuns | pkg/certificate/chain/chain.go:170-206 | In a run where each update comes no later than the previous one asked, verification never fails after the first update, and the CA rotates exactly R-O after it was issued |
| ChainOverlap.PunctualOverlap | pkg/certificate/chain/deadlines.go:10-62 | With O at most R/2, bundles of punctual runs never hold more than two certificates |
| ChainRuns.RunPrediction | pkg/certificate/chain/chain.go:166-241 | After an update that returned u, an update at any later time changes the data if and only if it comes at u or later, and returns u again before |
| ChainPrediction.PredictionIsExact | pkg/certificate/chain/api.go:63-80 | The same from the invariant alone: the earliest of the four deadlines is exactly the first time at which an update has something to do |
| ChainRuns.RunInvariant | pkg/certificate/chain/chain.go:99-138 | The invariant holds after every update of every run: coherent PEM data, all leaves signed by the current CA, key of the last leaf, bundles ending with the CA, issued lists sorted, nothing expired |
| ChainInvariant.InvEstablished | pkg/certificate/chain/chain.go:186-196 | Every update that rotates everything establishes the invariant, from any data |
| ChainInvariant.InvKept | pkg/certificate/chain/chain.go:166-228 | Every update keeps the invariant, whichever branch it takes and however late it comes |
| ChainRuns.RunBundlesSorted | pkg/certificate/chain/chain.go:100-111 | Bundles stay sorted by expiration through every run that starts from sorted, for instance blank, bundles |
| ChainOverlap.RunInLockstep | pkg/certificate/chain/rotation.go:29-49 | After every update of a run all bundles hold the same certificates and all issued lists expire alike: a machine over one list of each computes both |
| ChainLockstep.LockstepKept | pkg/certificate/chain/rotation.go:29-49 | One update of a chain in lockstep refines one step of the machine over two lists |
| ChainLockstep.ActionsAgree | pkg/certificate/chain/chain.go:170-197 | What to rotate can be decided from the two lists: an overlap before the last expiration, or once the first leaf has expired |
| ChainRuns.BlankStarts | pkg/certificate/chain/deadlines.go:14-19 | Blank data with at least one bundle make the first update rotate everything |
| ChainRepair.SelfHealing | pkg/certificate/chain/chain.go:175-196 | From any PEM data that fail verification at now, an update at now, whatever order its loops take, leaves data that pass it at now, each bundle being the unexpired certificates that could be read from it followed by the new CA; or it panics |
| ChainRepair.HealsUnlessPanic | pkg/certificate/triple/cert.go:170-174 | Some order of the loops is spared the panic if and only if the CA is due, no certificate of an issue is without DNS names, or some bundle is rejected; every order is if and only if the CA is due or no certificate is without |
| ChainVerdicts.UpdatePanics | pkg/certificate/chain/chain.go:178-184 | An update panics in some order exactly if the CA is not due and, for a bundle that ends with the CA certificate and holds a root, the first certificate of the issue has no DNS names; in every order exactly if, besides, no bundle is rejected |
| ChainVerdicts.PanicsInSomeOrder | pkg/certificate/chain/chain.go:243-259 | Verification panics in some order of its loops if and only if it gets to such a bundle in one |
| ChainVerdicts.PanicsInEveryOrder | pkg/certificate/chain/chain.go:243-259 | and in every order if and only if, besides, no bundle is rejected |
| ChainVerdicts.TrustedInAnyOrder | pkg/certificate/chain/chain.go:243-259 | Success of verification does not depend on the order |
| ChainSamples.EveryUpdatePanics | pkg/certificate/triple/cert.go:170-174 | A concrete stored chain, with an unexpired certificate that the CA signed and that names no host, on which verification fails and every update panics instead of repairing it |
| ChainRepair.Progress | pkg/certificate/chain/chain.go:166-241 | From any data the returned time is strictly after now if and only if there is at least one bundle and what the update issues, if anything, falls due after now; without a bundle every update rotates everything |
| ChainMargin.FullRotationMargin | pkg/certificate/chain/deadlines.go:56-62 | What a full rotation issues falls due later than now, whenever now is, if and only if each interval exceeds its overlap, rounded to float64, by a second |
| ChainMargin.LeafMargin | pkg/certificate/chain/deadlines.go:56-62 | The same for a certificate issued under an older CA: its interval must besides cover the most that float64 takes off the difference, a function of the rounded overlap |
| ChainMargin.OptionsProgress | pkg/certificate/chain/chain.go:166-241 | With such options every update of any data with a bundle returns a time strictly after now |
| ChainMargin.ProgressMargin | pkg/certificate/chain/chain.go:166-241 | and for data with an empty bundle it does so at all times only with options of the first kind |
| ChainMargin.ExactOptionsAreAhead | pkg/certificate/chain/options.go:12-27 | For overlaps that are multiples of 512 ns the conditions amount to a plain second between overlap and interval |
| ChainMargin.ASecondMayNotDo | pkg/certificate/chain/deadlines.go:58-60 | Options with a second in between, and an overlap of 2^53 + 3 ns, for which some update returns a time that is not after now |
| ChainRest.UpdateIsCoherent | pkg/certificate/chain/chain.go:99-138 | Decoding the PEM data again gives the decoded fields after any update of any data, and the returned time is the earliest deadline of the result |
| ChainRest.RestsWhileVerified | pkg/certificate/chain/chain.go:170-184 | Before the earliest deadline of any data an update leaves them alone if and only if they verify |
| ChainRest.VerifiedRests | pkg/certificate/chain/chain.go:166-241 | and then it returns that deadline |
| ChainRest.StaysVerified | pkg/certificate/chain/chain.go:170-228 | After an update that keeps the CA, of any data, these verify at the same time if and only if in every bundle some root that is left vouches for the first certificate that is left |
| ChainRest.StaysVerifiedBeforeCleanUp | pkg/certificate/chain/chain.go:170-228 | which is so before both clean-up deadlines, if every issue could be decoded |
| ChainSamples.UpdateMayLeaveUnverified | pkg/certificate/chain/cleanup.go:21-26 | A concrete chain whose first certificate verifies at the very moment it expires and is cleaned up: the result no longer verifies although the returned time lies ahead |
| ChainPrediction.ReturnedTimeIsNextDeadline | pkg/certificate/chain/chain.go:208-237 | Cleaning up inside an update never removes the last certificate of a list, so the rotation deadlines found before it hold after it |
| ChainPrediction.QuietUntilDeadline | pkg/certificate/chain/chain.go:166-241 | Under the invariant an update before the next deadline changes nothing and returns that deadline |
| ChainPrediction.BusyFromDeadline | pkg/certificate/chain/chain.go:166-241 | Under the invariant an update at or after the next deadline changes the data |
| ChainPrediction.CurrentVerifies | pkg/certificate/chain/chain.go:243-259 | Data signed by the current CA verify until the CA certificate or some first certificate expires, both ends included |
| ChainLockstep.ExpiredFirstFails | pkg/certificate/triple/cert.go:170-176 | Once the first certificate has expired verification fails, which is what forces a late update to rotate everything |
| ChainInvariant.ShapeKept | pkg/certificate/chain/chain.go:166-241 | An update renames nothing and adds or drops no issue and no bundle |
| ChainFacts.CleanedUpKeepsLast | pkg/certificate/chain/cleanup.go:7-32 | Cleaning up a list whose last certificate is unexpired keeps that one and leaves nothing expired |
| ChainFacts.UnexpiredSame | pkg/certificate/chain/cleanup.go:18-29 | Filtering changes a list exactly when something in it expired |
| ChainFacts.UnexpiredMember | pkg/certificate/chain/cleanup.go:21-28 | What remains are exactly the members that expire strictly after now |
| ChainFacts.DeadlineNear | pkg/certificate/chain/deadlines.go:56-62 | A rotation falls due an overlap before the expiration, to within 512 ns and never after it, and exactly then for overlaps that are multiples of 512 ns |
| ChainFacts.CADeadline | pkg/certificate/chain/deadlines.go:10-30 | The CA deadline is the zero time when a bundle is empty or there is none, and the earliest deadline of a last certificate otherwise |
| ChainFacts.CertDeadline | pkg/certificate/chain/deadlines.go:33-51 | The certificate deadline is the earliest deadline of a last issued certificate |
| ChainFacts.CertDeadlineMissing | pkg/certificate/chain/deadlines.go:33-51 | and the zero time when some issue has no certificate, or there is no issue |
| ChainFacts.DecodedIsCoherent | pkg/certificate/chain/chain.go:24-81 | Decoding establishes coherence of PEM and decoded fields |
| ChainFacts.DecodedPairMeans | pkg/certificate/chain/chain.go:141-157 | A pair decodes if and only if the key found first is an RSA key, and the certificate data hold a certificate block and no malformed one; otherwise nothing is kept |
| ChainFacts.CoherentWithCACert | pkg/certificate/chain/chain.go:100-111 | Adding a CA certificate to all bundles keeps it |
| ChainFacts.CoherentWithBundle | pkg/certificate/chain/chain.go:114-117 | Setting a bundle keeps it |
| ChainFacts.CoherentKeys | pkg/certificate/chain/chain.go:120-132 | Setting a key, resetting or appending the certificate, keeps it |
| ChainFacts.CoherentWithCerts | pkg/certificate/chain/chain.go:135-138 | Setting the certificates keeps it if and only if the new list is non-empty exactly when there is a key |
| FloatDuration.SubtractExact | pkg/certificate/chain/deadlines.go:58-60 | The float64 subtraction is exact when operands and result are representable |
| FloatDuration.SubtractNear | pkg/certificate/chain/deadlines.go:58-60 | For whole-second validities below 2^62 ns it is off by at most 512 ns, never above the validity, and exact for overlaps that are multiples of 512 ns |
| FloatDuration.Float64Near | pkg/certificate/chain/deadlines.go:58-59 | Rounding to nearest moves a value below 2^62 by at most 256 and never across a representable bound |
| FloatDuration.Float64IsNearest | pkg/certificate/chain/deadlines.go:58-60 | It gives a nearest multiple of the spacing of float64 values around, and an even one where two are equally near |
| ChainOptions.OptionsVar.SetDefaultsAndValidate | pkg/certificate/chain/options.go:50-58 | Overwrites the options with their defaults if these validate, and leaves them alone otherwise |
| ChainOptions.DefaultsAre | pkg/certificate/chain/options.go:29-48 | Given fields stay; a missing CA interval becomes a year, a missing certificate interval that of the CA, and a missing overlap a third of its own interval, rounded towards zero |
| ChainOptions.AcceptedMeans | pkg/certificate/chain/options.go:12-48 | Options are accepted if and only if, with intervals filled in, the one of the certificates is at most that of the CA, given overlaps are smaller than their intervals, and the intervals of overlaps not given are positive |
| ChainOptions.DefaultsAreIdempotent | pkg/certificate/chain/options.go:29-48 | Setting the defaults again changes nothing |
| ChainOptions.AcceptedInRange | pkg/certificate/chain/options.go:12-27 | Accepted options satisfy 0 <= O < R and 0 <= Oc < Rc <= R if and only if neither overlap was given negative |
| ChainOptions.NegativeOverlapIsAccepted | pkg/certificate/chain/options.go:12-27 | Validation does let a negative overlap pass |
| Triple.EncodeCertsPEM | pkg/certificate/triple/pem.go:75-82 | One certificate block per certificate, in order |
| Triple.ParseCertsPEM | pkg/certificate/triple/pem.go:162-189 | The certificates before the first malformed certificate block, and an error unless there is one and no block is malformed |
| Triple.ParsePrivateKeyPEM | pkg/certificate/triple/pem.go:86-118 | Finds a key if and only if some block is an RSA, EC or PRIVATE KEY block with content in PKCS#1, SEC 1 or PKCS#8 |
| Triple.ParsedKeyIs | pkg/certificate/triple/pem.go:86-118 | and it is the key of the first such block |
| Triple.CertsInMore | pkg/certificate/triple/pem.go:162-189 | One block more adds its certificate at the end if it is a certificate block without headers and no malformed one comes before or in it, and nothing otherwise |
| Triple.ParsesMeans | pkg/certificate/triple/pem.go:162-189 | Parsing reports no error if and only if there is a certificate block without headers and none of these holds anything else |
| Triple.ParseAfterEncode | pkg/certificate/triple/pem.go:162-189 | Parsing after encoding gives the same certificates, without error unless there are none |
| Triple.PoolAfterEncode | pkg/certificate/triple/cert.go:164-168 | The root pool of encoded certificates holds exactly these |
| Triple.VerifyTLS | pkg/certificate/triple/cert.go:151-183 | Panics if and only if key, certificates and some root parse but the first certificate has no DNS names; otherwise accepts if and only if key and certificates parse and a member of the root pool vouches for the first one, having signed it or being it; never without a block that holds a private key |
| Triple.TrustedMeans | pkg/certificate/triple/cert.go:151-183 | Acceptance block by block: a private key, certificates and no malformed ones, a first certificate with a host name and within its validity, and in the bundle that certificate or the CA certificate of its issuer and issuer key, within its validity too |
| Triple.VerifiesAgainstEncoded | pkg/certificate/triple/cert.go:164-180 | Verifying against encoded roots means that one of them signed the leaf and both are valid, or that the leaf is valid and one of them |
| Chain.CleanUpCertificateList | pkg/certificate/chain/cleanup.go:7-32 | Compaction over the backing array leaves the order-preserving filter in front and the tail of the array as it was |
| Chain.EarliestOf | pkg/certificate/chain/deadlines.go:102-110 | The running minimum is the earliest of the values, the zero time for none |
| Chain.CertificateChain.RotationDeadlineForCA | pkg/certificate/chain/deadlines.go:10-30 | Computes the CA deadline of the model |
| Chain.CertificateChain.RotationDeadlineForCerts | pkg/certificate/chain/deadlines.go:33-51 | Computes the certificate deadline of the model |
| Chain.CertificateChain.CleanUpDeadlineForCACerts | pkg/certificate/chain/deadlines.go:66-75 | Computes the earliest expiration in any bundle |
| Chain.CertificateChain.CleanUpDeadlineForCerts | pkg/certificate/chain/deadlines.go:79-88 | Computes the earliest expiration of any issued certificate |
| Chain.CertificateChain.SetCaKeyPair | pkg/certificate/chain/chain.go:100-111 | Overwrites the CA in all formats and appends its certificate to every bundle |
| Chain.CertificateChain.SetCaCerts | pkg/certificate/chain/chain.go:114-117 | Overwrites one bundle in both formats and nothing else |
| Chain.CertificateChain.SetKeyResetCert | pkg/certificate/chain/chain.go:120-124 | Overwrites key and certificates of one issue in all formats |
| Chain.CertificateChain.SetKeyAppendCert | pkg/certificate/chain/chain.go:127-132 | Overwrites the key and appends the certificate of one issue in all formats |
| Chain.CertificateChain.SetCerts | pkg/certificate/chain/chain.go:135-138 | Overwrites the certificates of one issue and keeps its key |
| Chain.CertificateChain.RotateCerts | pkg/certificate/chain/rotation.go:29-49 | Gives every issue a new key and certificate signed by the CA; refuses at the first issue without a common name, leaving the ones before it rotated |
| Chain.CertificateChain.RotateAll | pkg/certificate/chain/rotation.go:9-27 | Draws a new CA and resets every issue under it |
| Chain.CertificateChain.CleanUpCACerts | pkg/certificate/chain/cleanup.go:34-42 | Filters every bundle with more than one certificate |
| Chain.CertificateChain.CleanUpCerts | pkg/certificate/chain/cleanup.go:44-50 | Filters every issued list with more than one certificate |
| Chain.CertificateChain.VerifyTLS | pkg/certificate/chain/chain.go:243-259 | Returns the verdict of the order that its loops take: the first bundle that does not end with the CA certificate, fails or panics |
| Chain.CertificateChain.Update | pkg/certificate/chain/chain.go:166-241 | One update in place, in the order its loops take: the new data, the returned time, when it fails, when it panics, and which keys it draws |
| Chain.NewChain | pkg/certificate/chain/chain.go:24-81 | Validates the options and decodes all PEM data in place, leaving empty what does not decode |
| Chain.KeyPairPemToKeyPair | pkg/certificate/chain/chain.go:141-157 | Either both an RSA key and certificates decode, or neither is returned |
| Chain.Update | pkg/certificate/chain/api.go:73-80 | An update restarts from the PEM data: decoding, then one step, an error or a panic |
| Chain.Verify | pkg/certificate/chain/api.go:83-90 | Decodes the PEM data and returns the verdict of some order |
| Chain.DrawnKeysAreNew | pkg/certificate/triple/cert.go:64-66 | The keys that an update draws, whatever it rotates, are new to the data |
| ApiServer.SameVersionUntouched | pkg/certificate/configuration.go:203-213 | After any operations of others an object is found under the same resource version if and only if none of them touched it, and then it is unchanged |
| ApiServer.GoneForGood | pkg/certificate/configuration.go:203-213 | A resource version that was replaced never comes back |
| ApiServer.Server.Create | pkg/certificate/configuration.go:207-209 | Refused for an object that exists or carries a resource version |
| ApiServer.Server.Update | pkg/certificate/configuration.go:210-213 | Refused unless the stored resource version is the one carried |
| Configuration.HostnameInjective | pkg/certificate/configuration.go:391-393 | Services with dot-free names have host names of their own |
| Configuration.BundleNamesCollide | pkg/certificate/configuration.go:383-385 | Bundle names of different configurations can coincide |
| Reading.LabelsAreSound | pkg/certificate/configuration.go:379-397 | With label names, distinct bundle names and no service named like the CA secret nothing is ambiguous |
| Configuration.ReadIsUnique | pkg/certificate/configuration.go:125-141 | Objects describe at most one chain, whatever order they are read in |
| Configuration.AddConfig | pkg/certificate/configuration.go:264-274 | Mapping one more client configuration extends the chain described so far by exactly that configuration |
| Configuration.AddServiceSecret | pkg/certificate/configuration.go:318-330 | Reading a service secret finds the issue of the service and extends the chain by that secret |
| Configuration.AddCASecret | pkg/certificate/configuration.go:332-341 | Reading the CA secret extends the chain by it |
| Configuration.ClientConfigsAt | pkg/certificate/configuration.go:429-454 | The map of client configurations leads to webhooks of that name that have a service |
| Configuration.ClientConfigsComplete | pkg/certificate/configuration.go:429-454 | No webhook that names a service is missing from it, and it leads to the i-th webhook if and only if that one is the last of its name to name a service |
| Reading.ReadConfig | pkg/certificate/configuration.go:264-279 | Reading a configuration puts its secret on the list and keeps the reading invariant |
| Reading.DropWebhook | pkg/certificate/configuration.go:254-258 | Taking a webhook without client configurations off the list keeps it |
| Reading.ReadServiceSecret | pkg/certificate/configuration.go:318-330 | So does reading a service secret, whose issue is never missing |
| Reading.ReadingDone | pkg/certificate/configuration.go:125-141 | When nothing is left to read, the chain data are what the objects describe by comprehension and every secret is on the list |
| CertificateManager.Manager.InitObjects | pkg/certificate/configuration.go:109-119 | One unread entry per webhook reference, of its type and name and in no namespace, and one for the secret <name>-ca in the namespace of the manager |
| CertificateManager.ClientConfigMap | pkg/certificate/configuration.go:429-454 | The last webhook of each name that has a service, and no name of such a webhook is missing |
| CertificateManager.Manager.MapClientConfig | pkg/certificate/configuration.go:264-279 | One configuration joins the issue of its service, and the secret always gets a further entry because the lookup is by a new pointer |
| CertificateManager.Manager.MapWebhookToChain | pkg/certificate/configuration.go:253-280 | Maps every configuration in any order, or drops the webhook |
| CertificateManager.Manager.MapSecretToChain | pkg/certificate/configuration.go:301-341 | Maps the CA secret or a service secret, whose issue is there in any environment |
| CertificateManager.Manager.ReadObjectToChain | pkg/certificate/configuration.go:161-179 | Reads and maps one object, in any environment; not found is an error only when verifying; fewer webhooks or as many and fewer objects remain |
| CertificateManager.Manager.ReadPass | pkg/certificate/configuration.go:128-136 | One range over the growing object map in any order, new entries being visited or not |
| CertificateManager.Manager.ReadObjectsToChain | pkg/certificate/configuration.go:125-141 | Terminates in any environment; in one that leaves the store alone it yields the chain that the objects describe, and when verifying fails if and only if something is missing |
| CertificateManager.Manager.ReadCertificateChain | pkg/certificate/configuration.go:92-97 | The same from an empty object map |
| Writing.FromChainIsIdempotent | pkg/certificate/configuration.go:283-366 | Mapping the same chain data into an object once more changes nothing |
| Writing.RoundTrip | pkg/certificate/configuration.go:145-216 | Chain data read, changed and written back are what the objects describe afterwards |
| Writing.WriteNext | pkg/certificate/configuration.go:184-216 | Undisturbed, the first write of an object succeeds, and a further one if and only if the object was up to date |
| Writing.UpToDateWritesNothing | pkg/certificate/configuration.go:198-201 | Writing to objects that are all up to date leaves the store as it was |
| CertificateManager.Manager.MapWebhookFromChain | pkg/certificate/configuration.go:283-298 | Replaces the bundle of exactly those webhooks for which the chain holds one |
| CertificateManager.Manager.MapFromChain | pkg/certificate/configuration.go:283-366 | Maps the chain data into a webhook object, a service secret or the CA secret, and changes nothing but the bundles of webhooks that name a service, or the type and the two entries of a secret |
| Writing.FromChainDiffersOnly | pkg/certificate/configuration.go:283-366 | Names, services and all other fields of webhooks, other entries of secrets, annotations and the version are as they were |
| Writing.MappedBundle | pkg/certificate/configuration.go:283-298 | A webhook that is the last of its name to name a service gets the bundle that the issue <service>.<namespace>.svc holds for it, unless there is none |
| Writing.MappedSecret | pkg/certificate/configuration.go:343-366 | tls.key and tls.crt are those of the issue, ca.key and ca.crt those of the CA |
| CertificateManager.Manager.WriteObjectFromChain | pkg/certificate/configuration.go:184-216 | In any environment a write replaces the very object that was read, or creates what was absent, with the mapped object; undisturbed its outcome is a function of the store |
| ManagerSteps.RewroteNothingLost | pkg/certificate/configuration.go:203-213 | One more write keeps the property that no update of others is lost: the object replaced is the one that was read at the start and again before writing |
| ManagerSteps.FoundUnchanged | pkg/certificate/configuration.go:203-213 | An object found under the version it was read with is the object that was read |
| ManagerSteps.RewroteNothingElse | pkg/certificate/configuration.go:184-216 | One more write keeps the property that all writes change nothing but what the manager is there for |
| ManagerSteps.CreatedSecret | pkg/certificate/configuration.go:236-246 | A secret that the manager creates carries the annotation kubevirt.io/kube-admission-webhook and just its pair of entries |
| ChainRuns.StepKeepsTrust | pkg/certificate/chain/cleanup.go:7-42 | No update of any PEM data takes an unexpired certificate out of what a bundle decodes to |
| Worklist.MappingKeepsTrust | pkg/certificate/configuration.go:283-298 | so a webhook that was read and mapped again loses none from its bundle, if all that was read is in the chain |
| Worklist.DistinguishableByPrefix | pkg/certificate/configuration.go:383-385 | Two webhook objects cannot have bundle names in common if and only if neither name, with the hyphen that follows it, begins the other |
| Worklist.KindsAreDistinguishable | pkg/certificate/configuration.go:41-55 | and never if one is mutating and the other validating |
| Worklist.CollidingBundles | pkg/certificate/configuration.go:383-385 | Webhooks of one service whose bundle names collide are given the same bundle, and the one whose bundle was replaced in the chain keeps its unexpired certificates if and only if the other one had them or the update adds them |
| CertificateManager.Manager.WriteObjectsFromChain | pkg/certificate/configuration.go:145-153 | In any environment no update is lost, nothing but bundles and pairs is changed, and no bundle loses an unexpired certificate; undisturbed it succeeds if and only if no object to be changed has two entries, and touches nothing when all are up to date |
| Sharing.DoubledIsClash | pkg/certificate/configuration.go:275-278 | After reading, an object to be changed has two entries if and only if it is referred to for two reasons |
| Sharing.TraceConfig | pkg/certificate/configuration.go:275-278 | Every configuration adds an entry of its own for the secret of its service |
| Sharing.ClashShares | pkg/certificate/configuration.go:275-278 | A clash takes two configurations of one service, or a webhook with configurations that is listed twice, whatever the chain data |
| Reconciling.RotationClashes | pkg/certificate/configuration.go:275-278 | and that is exactly when a reconcile clashes that rotates everything, or the issued certificates alone |
| Reconciling.SharedServiceClashes | pkg/certificate/configuration.go:275-278 | Where something is shared, every reconcile that rotates has a secret to write twice |
| Reconciling.KeepDrawsNothing | pkg/certificate/chain/chain.go:186-206 | Without a rotation what is written, and so whether it clashes, does not depend on keys drawn during the call |
| CertificateManager.Manager.Reconcile | pkg/certificate/manager.go:81-107 | In any environment no update is lost, nothing but bundles and pairs is changed and, between distinguishable webhooks, no webhook loses an unexpired CA certificate; undisturbed it writes exactly one update step, succeeds unless something is shared and, if it rotates, only then, repairs a store that fails verification, does not touch one at rest, and leaves the schedule quiet; it panics only over a certificate without DNS names, and undisturbed it always does where every order of verification would |
| CertificateManager.Manager.VerifyTLS | pkg/certificate/manager.go:111-137 | Writes nothing; undisturbed it accepts if and only if all webhook objects and secrets are there and every webhook that names a service trusts it |
| CertificateManager.NewManager | pkg/certificate/manager.go:62-77 | Fails exactly on options that do not validate, and keeps them with their defaults |
| Reconciling.EndToEndRepair | pkg/certificate/manager.go:81-137 | After an undisturbed reconcile of a store that fails strict verification, the store passes it at the same time if and only if the webhooks to manage are there |
| Reconciling.Repaired | pkg/certificate/manager.go:81-137 | and it then holds chain data that satisfy the run invariant |
| Reconciling.ReconcileHolds | pkg/certificate/manager.go:95-103 | After any undisturbed reconcile the objects hold what the update left behind, with nothing to write, and the requeue time is its earliest deadline |
| Reconciling.Quiescence | pkg/certificate/configuration.go:184-201 | Before that deadline a further reconcile finds every object up to date if and only if the data still verify |
| Reconciling.RestKeepsStore | pkg/certificate/configuration.go:198-201 | and then leaves every object of the store as it is |
| Reconciling.SettledVerifies | pkg/certificate/manager.go:81-107 | which they do once some reconcile has rotated everything |
| Reconciling.StaysSettled | pkg/certificate/manager.go:81-107 | and that lasts through any number of undisturbed reconciles, whenever they come |
| ReconcileRuns.StoresFollowRun | pkg/certificate/manager.go:81-107 | After any number of undisturbed reconciles the objects hold what the same number of updates in memory would have led to, so all results about runs hold for the cluster |
| ReconcileRuns.ClusterTrustContinuity | README.md:9-11 | A certificate that the secret of a service held after reconcile i verifies against the bundle in every webhook of the service after any later reconcile j, while it and its signer last |
| ReconcileRuns.FreshStoreStartsRun | pkg/certificate/configuration.go:92-141 | Reading webhooks without bundles and no secrets gives blank data, from which runs start |
| Controller.Repair | pkg/certificate/controller.go:95-108 | One reconcile of a store that fails verification, once it returns, leaves it settled and verified and every webhook equipped, and asks to be called at its next deadline |
| Controller.ReconcileOnce | pkg/certificate/controller.go:95-108 | Any reconcile that returns takes the objects one step on and leaves every webhook that names a service with the bundle of its issue |
| Controller.ReconcileAndVerify | pkg/certificate/manager.go:81-137 | so that strict verification called afterwards succeeds |
| Controller.ReconcileTwice | pkg/certificate/controller.go:95-108 | and a reconcile before the time that was asked for writes nothing and asks for the same time |
| Controller.ReconcileAll | pkg/certificate/controller.go:95-108 | The manager called any number of times: as long as its reconciles return they establish a run, so the results about runs hold for what it leaves in the store |
| Reconciling.UnverifiedRotatesAll | pkg/certificate/chain/chain.go:175-184 | Whatever is missing or wrong, short of a missing webhook, makes the update rotate everything |
| Reconciling.BundlesAreConfigs | pkg/certificate/configuration.go:264-274 | There is a bundle exactly when some webhook names a service |
| Reconciling.NamedAndHosted | pkg/certificate/configuration.go:399-413 | Chain data that were read never make a rotation fail: every issue is named after its host name, which is among its host names along with the fully qualified one |
| Delivery.IssueNames | pkg/certificate/configuration.go:387-413 | The issue of a service s in namespace n is named s.n.svc and has the host names s, s.n, s.n.svc and s.n.svc.cluster.local |
| Delivery.CallsAreConfigs | pkg/certificate/configuration.go:429-454 | Every webhook that is the last of its name in a managed object to name a service is a client configuration of that service |
| Delivery.ConfigsAreCalls | pkg/certificate/configuration.go:429-454 | and every client configuration is such a webhook |
| Delivery.HoldingDelivers | pkg/certificate/configuration.go:283-298 | In a store that holds chain data, each of these webhooks carries the bundle that the issue of its service holds for it |
| Delivery.ReconcileDelivers | pkg/certificate/manager.go:81-107 | which it does after any undisturbed reconcile, unless that bundle is empty |
| Delivery.NothingUndelivered | pkg/certificate/chain/chain.go:166-241 | which no bundle is after an update with valid options of data with validities within reach |
| Delivery.SettledEquips | pkg/certificate/manager.go:81-107 | In a settled store, for each of them: both secrets are there with their types and entries, its bundle ends with the stored CA certificate, which is named after the CA secret and comes with its key, and all certificates of the service are server certificates signed by it for s.n.svc and the other host names, the last one with its key |
| Delivery.VerifiedMeans | pkg/certificate/manager.go:111-137 | Strict verification succeeds if and only if all webhook objects and secrets are there, every bundle ends with the stored CA certificate, and every pair of a service verifies against every bundle of its webhooks |
| Delivery.VerifiedKeys | pkg/certificate/triple/cert.go:154-157 | A chain that verifies has a private key for every issue with a bundle |
| Delivery.KeylessRotatesAll | pkg/certificate/triple/cert.go:154-157 | A webhook whose service has no private key, in any block, makes the update rotate everything |
| Hosting.HostedNeverPanics | pkg/certificate/triple/cert.go:170-174 | Where every certificate names a host, verification never panics |
| Hosting.UpdateKeepsHosted | pkg/certificate/chain/rotation.go:29-49 | An update keeps it that way |
| Hosting.HostedTurn | pkg/certificate/triple/cert.go:170-174 | and so does whatever others store, if they store only such certificates |

## Left out

- RSA key generation, signatures, DER, base64 and serial numbers: keys, certificates and blocks are abstract, and these calls succeed.
- IP addresses of an issue: reading never sets them.
- A CA key that does not belong to the CA certificate is taken as stored: leaves are then signed by the key and named after the certificate, as the Go release of this module does without checking.
- Extended key usages, name constraints and the match of a DNS name against its own certificate: always met by what is issued here.
- Issues are values in a map rather than pointers, and certificate lists are values whose clean-up runs on a backing array of its own, so aliasing between lists is not captured.
- The difference between a nil and an empty byte slice or map: an empty bundle in the chain counts as none and is not written.
- A panic ends the call as an outcome of its own; recovering from it, and the state of the mutex afterwards, are not part of this model.
- Chain.CertificateChain.Update: says nothing about the data after a rotation that failed; the caller drops them.
- Clock movement during one update, and the saturation of very long durations in Go.
- The cache of the Kubernetes client, polling until it is ready, and a read that overwrites its target although it fails.
- Validation of objects by the API server beyond resource versions, such as the immutable type of a secret.
- The controller with its watches, the webhook server, logging, and the mutex: reconciling and verifying exclude each other.
- ECDSA helpers, parsing of public keys, client key pairs, AddCertToPEM and minDuration: not on the path of rotation.
- CertificateManager.Manager.Reconcile: leaves open whether a disturbed reconcile succeeds and which chain it computes; what it writes is then only what the versions it read allow.
- Writing.RoundTrip: requires that no bundle was left empty, because the code does not write an empty one; updates leave none.
- ChainOverlap.BoundedOverlap: is stated for options in whole seconds and runs from blank data; foreign bundles may be of any length until they expire.
