# Nest adapters: a verified model

A Dafny model of the identity, encoding, validation, trust, discovery, dataset and auth adapters
of this repository, and of the scenarios that run over them, with proofs of what they promise.
`dafny verify dfyconfig.toml` checks everything.

What is modelled, bottom up:

* **Encodings** (`Positional`, `Base58`, `Encodings`). Base58btc as in draft-msporny-base58,
  sections 3 and 4, with the loops of the source proved against a base-independent conversion;
  did:key as in the did:key Method, section "The did:key Format"; the bytes a signature covers and
  the bytes a key is derived from.
* **Key history** (`Crypto`, `KeyHistory`, `Identity`, `IdentityRuns`, `PeerActive`, `Stamps`,
  `Retimed`). The rotating identity as a class over mutable key records, proved call by call
  against functions on record lists; then whole runs of one object, and of an owner and a peer under every delivery schedule,
  honest or made of whatever the owner signed.
* **Trace validation** (`Validator`, `ValidatorLaws`, `OnePass`, `HonestTrace`). The two-pass
  validator as loops over a verifier object; a per-agent characterisation; agreement with a
  one-pass verifier; and the exact condition under which traces of honest signers pass.
* **Corroboration topology** (`Topology`, `ReputationRun`). The graph for any two population
  sizes, its strongly connected components, counts and densities, and the scenario's reports.
* **Layers** (`Trust`, `DataFacts`, `Registry`, `Auth`). Each adapter as a class, with laws over
  all sequences of calls.
* **Scenarios** (`Marketplace`, `MarketRuns`, `MarketTotals`, `Handshake`, with `AgentNames` and
  `Ensemble`). Handlers as atomic steps taken in any order, with exact totals and termination.

Idealisations. A signature verifies exactly when it is the one made by that key over those bytes
(Ed25519, sections 5.1.6 and 5.1.7 of RFC 8032, is not modelled), key ids and content hashes are
injective, and a derived public key is named by the seed, agent and rotation count it comes from
(`Crypto.DerivationsDistinct` says why that is sound under one seed); what is presented as a key may
also be the bytes of a signed message or any other bytes. Ticks and scores are reals,
with an explicit infinity for the end of an open window. Messages are datatypes.

## Findings

Six things the code does that its documentation does not say.

* **A closed window can reopen.** `observe_rotation` overwrites the closing tick of the prior key
  whenever the continuity signature verifies, also when the key was already closed
  (`src/nest_adapters/identity.py:217`). `KeyHistory.ObservedFinality` gives the exact condition
  under which past verdicts stay, `KeyHistory.ClosedWindowCanReopen` an input at which they do not.
  The signature covers the new key and not the tick (`identity.py:212`), so a rotation can be
  announced again with another tick. Delivered with their true ticks, rotations change no earlier
  verdict (`KeyHistory.PeerVerdictsFinal`).
* **Every signed message is a continuity signature.** Messages and new keys are signed by the same
  key as plain bytes, and `observe_rotation` takes any bytes as the new key, so a message presented
  with the bytes it covers ends its key's window at any tick (`Stamps.StampIsAccepted`,
  `Stamps.StampTraceValidated`). `Stamps.RotationUnlessStamp` is the exact condition: apart from
  these, accepted announcements made of an owner's signatures are the owner's rotations.
  `Retimed.RetimedHistory` and `Retimed.RetimedVerdict` say what a peer then holds and accepts.
* **A refusal can turn into an error.** A new key is not required to be usable, and verification
  against one that is not 32 bytes raises (`identity.py:277-283`): a signature naming bytes not yet
  heard of is refused, and raises once they were announced, also for ticks before the announcement
  (`Stamps.RefusalTurnsIntoRaise`). The condition in `KeyHistory.ObservedFinality` covers this.
* **An announcement that brings nothing new can make `resolve` stale.** Each accepted announcement
  appends a record, and the active record is the first open one. A repeat leaves an extra open
  record that comes before keys learned later; a signed message also ends the window of the key in
  service, and the peer is resolved to the message's bytes. `PeerActive.ResolvedKey` gives the key
  resolved for every schedule, `PeerActive.ActiveIsLatest` the exact condition.
* **Revocation is of a text.** `revoke` remembers the token's text, and `verify` decodes the base64
  of the signature, which several texts spell (`src/nest_adapters/auth_didkey.py:100,126`). A
  revoked token in another spelling is accepted (`Auth.RespelledIsAccepted`); no number of
  revocations takes a good credential out of service (`Auth.GoodCredentialStaysUsable`), and
  `Auth.RevocationIsFinal` is the exact condition for one text.
* **Access is granted without the integrity check.** `request_access` looks only at whether the URL
  is known, and its receipt is signed by the owner the dataset names at that moment
  (`DataFacts.TamperThenRequest`). `DataFacts.FetchThenRequest` gives the exact condition of either
  gate.

Preconditions the identity class does not enforce appear where they are needed, and only there:
`IdentityRuns.ClockMonotone` (the clock is set to finite ticks that do not go back) and
`IdentityRuns.NamesOthers` (no announcement heard and no registration names the observer itself).

## Model

| member | source | states |
|---|---|---|
| `Base58.EncodeBase58` | src/nest_adapters/determinism.py:155-163 | the repeated-division loop, with its leading `1`s, writes the specification's encoding |
| `Base58.DecodeBase58` | src/nest_adapters/determinism.py:166-177 | the digit loop returns the bytes the specification gives, or the error on the first character outside the alphabet |
| `Base58.DecodeEncode` | src/nest_adapters/determinism.py:155-177 | decoding an encoding gives back the bytes, for every byte string: empty, all zero, any number of leading zeros |
| `Base58.EncodeDecode` | src/nest_adapters/determinism.py:155-177 | a text decodes exactly when it is over the alphabet, and encoding what it decodes to gives back the text |
| `Base58.MinimalBytes` | src/nest_adapters/determinism.py:175 | `(bit_length + 7) // 8` is exactly the number of big-endian bytes a positive number needs, none of them wasted |
| `Base58.IndexOfLetter` | src/nest_adapters/determinism.py:43 | the 58 letters are distinct: finding a letter returns its own position |
| `Base58.AlphabetLetters` | src/nest_adapters/determinism.py:43 | the alphabet is all ASCII digits and letters but 0, O, I and l, 58 in ascending order |
| `Base58.EncodeMeans` | src/nest_adapters/determinism.py:155-163 | an encoding is written in those letters and denotes the number the bytes denote, each leading zero byte a leading `1` |
| `Base58.ZerosAreOnes` | src/nest_adapters/determinism.py:162-163 | k zero bytes encode as k times `1`, and decode from it |
| `Base58.DecodeRefuses` | src/nest_adapters/determinism.py:169-173 | a text is refused exactly when it holds a character that is no ASCII digit or letter, or one of 0, O, I, l |
| `Base58.EncodeExample` | src/nest_adapters/determinism.py:155-163 | the draft's test vector: bytes 00 00 28 7f b4 cd encode as `11233QC4` |
| `Positional.RecodeInverse` | src/nest_adapters/determinism.py:155-177 | converting a digit string between any two bases, leading zeros kept, is undone by converting back |
| `Base58.DidKeyBijection` | src/nest_adapters/determinism.py:124-152 | a key is recovered from its did:key string, and a string yields a key only if it is that key's string |
| `Base58.DidKeyMeans` | src/nest_adapters/determinism.py:124-152 | after `did:key:z` stands the encoding of the bytes ed 01 and the key; which texts are refused with which error, in the order of the checks |
| `Base58.DidKeyShape` | src/nest_adapters/determinism.py:124-134 | for every 32-byte key the string begins `did:key:z6Mk` and has 47 characters after `did:key:z` |
| `Encodings.SigningBytesInjective` | src/nest_adapters/determinism.py:82-93 | signed bytes are equal only for equal payload, key id and tick, whatever bytes the payload holds (key ids are hex and ticks printed numbers, so neither holds the separator byte) |
| `Encodings.SigningBytesSplit` | src/nest_adapters/determinism.py:82-93 | payload, key id and tick stand in this order and are found again at the last two bytes 0x1f |
| `Encodings.KeyMaterialCollisions` | src/nest_adapters/determinism.py:57 | exactly which inputs share key material: equal rotation count and equal seed-colon-agent text; for seeds of equal length only equal inputs |
| `Encodings.KeyMaterialSplit` | src/nest_adapters/determinism.py:57 | the rotation count is read after the last colon, and before it stand seed, colon and agent |
| `Encodings.DecimalRoundTrip` | src/nest_adapters/determinism.py:57 | the printed rotation count is ASCII digits without a leading zero and reads back as the number |
| `Encodings.DecimalsMean` | src/nest_adapters/determinism.py:93 | a printed tick has the fewest decimals, at least one, that leave nothing over |
| `Encodings.PrintedExamples` | src/nest_adapters/determinism.py:93 | `0.0`, `5.0`, `-12.25` and `1000.5` have 3, 3, 6 and 6 characters |
| `Crypto.DerivationsDistinct` | src/nest_adapters/determinism.py:47-59 | under one seed, keys of different agents or rotation counts are derived from different bytes |
| `KeyHistory.Find` | src/nest_adapters/identity.py:238-242 | the first record with the key id, or none |
| `KeyHistory.FirstOpen` | src/nest_adapters/identity.py:112-115 | the first record still open, or none |
| `KeyHistory.LookupExtended` | src/nest_adapters/identity.py:217-220 | what an accepted announcement does to every lookup: the prior key closed, the new key known unless it already was, all others untouched |
| `KeyHistory.RotatedChain` | src/nest_adapters/identity.py:143-165 | rotating closes the last window and opens the next at the same tick: a chain of windows stays a chain |
| `KeyHistory.ActiveOfChain` | src/nest_adapters/identity.py:112-116 | in a chain exactly the last record is open, and it is the active one |
| `KeyHistory.ActiveMeans` | src/nest_adapters/identity.py:112-116 | the active record is the first open one, and the last one when none is open |
| `KeyHistory.ChainAccepts` | src/nest_adapters/identity.py:207-215 | a peer that knows m rotations accepts announcement k exactly when k <= m |
| `KeyHistory.ChainObservesRepeat` | src/nest_adapters/identity.py:217-220 | an announcement heard again changes no lookup |
| `KeyHistory.PeerKnowsPrefix` | src/nest_adapters/identity.py:190-242 | under every delivery schedule, repeated, reordered or lost, lookups at the peer are lookups in a prefix of the owner's history whose last known key is still open |
| `KeyHistory.PeerAgreesWithOwner` | src/nest_adapters/identity.py:190-288 | the peer's verdicts equal the owner's for all ticks before the real closing tick of the last key the peer knows |
| `KeyHistory.WindowsPartitionTime` | src/nest_adapters/identity.py:143-165 | every tick from 0 on lies in exactly one window, that of the key numbered by the rotations made by then |
| `KeyHistory.VerdictMeansServingKey` | src/nest_adapters/identity.py:253-288 | accepted if and only if the signature is genuine and both the claimed tick and the as-of tick are served by the signing key |
| `KeyHistory.PrefixVerdicts` | src/nest_adapters/identity.py:253-288 | a prefix of a history judges everything before its last key's closing tick as the whole history does |
| `KeyHistory.ObservedFinality` | src/nest_adapters/identity.py:217-220 | an accepted announcement at tick c leaves every outcome before c alone, raising included and also for keys not yet known, if and only if c is not after the prior key's current closing tick or not after its issue, and the new key is 32 bytes or its id was known before |
| `KeyHistory.ClosedWindowCanReopen` | src/nest_adapters/identity.py:217 | that condition can fail: a peer that hears the registered key announced closed at 5, then at 10, refuses every genuine signature for a tick from 5 up to 10 after the first and accepts it after the second |
| `KeyHistory.ObservedRunFinality` | src/nest_adapters/identity.py:190-220 | over a whole run of announcements, honest or not, that keep to that condition and are not before c, no outcome before c ever changes: nothing accepted, refused or raised becomes anything else |
| `KeyHistory.PeerVerdictsFinal` | src/nest_adapters/identity.py:190-288 | at a peer, verdicts before the closing tick of the last known key never change, however further honest announcements are delivered |
| `KeyHistory.RotationFinality` | src/nest_adapters/identity.py:157-165 | the same if-and-only-if for a local rotation, whose active key is an own one and so can be read |
| `Stamps.StampIsAccepted` | src/nest_adapters/identity.py:207-220 | a message signed by any held key, presented with the bytes it covers as the new key, is accepted as an announcement: it ends that key's window at the announced tick and the bytes are held as a key |
| `Stamps.RotationUnlessStamp` | src/nest_adapters/identity.py:207-215 | given only signatures the owner made, an accepted announcement is a rotation the owner made if and only if its new key is not the bytes of a message by the prior key, which the announcement alone tells |
| `Stamps.StampsAreStamps` | src/nest_adapters/identity.py:137 | every signed message yields such an announcement, which is no rotation |
| `Stamps.StampReadable` | src/nest_adapters/identity.py:212 | the bytes of a message pass for a key exactly when payload and printed tick have 14 characters together |
| `Stamps.StampReadableExample` | src/nest_adapters/identity.py:203-212 | at a tick printed with three characters these are the payloads of 11 bytes |
| `Stamps.NamingStampRaises` | src/nest_adapters/identity.py:277-283 | verifying a signature that names such bytes raises unless they number 32 |
| `Stamps.RefusalTurnsIntoRaise` | src/nest_adapters/identity.py:277-283 | a peer hears a message signed at 5 announced at 9, which moves no window: a signature naming its bytes at tick 1 is refused before and raises after, for every payload but those of 11 bytes |
| `Stamps.StampTraceValidated` | src/nest_adapters/validators.py:49-94 | the validator at this input does not raise, counts a rotation though no key was rotated, and faults the honest signature exactly when the announced tick is not after it |
| `Retimed.TickIsUnsigned` | src/nest_adapters/identity.py:212-219 | the tick of an announcement plays no part in its acceptance |
| `Retimed.DeliveriesAreAll` | src/nest_adapters/identity.py:207-220 | every accepted announcement made of the owner's signatures is a rotation with some tick or a signed message with some tick |
| `Retimed.RetimedHistory` | src/nest_adapters/identity.py:190-242 | under every schedule of rotations and signed messages announced with any ticks, the peer holds exactly the owner's keys learned, each issued at the tick it was first accepted with and closed at the tick of the last accepted announcement by it |
| `Retimed.EveryScheduleIsDelivered` | src/nest_adapters/identity.py:190-242 | for any announcements of which those accepted carry only signatures the owner made, a schedule is found that announces exactly those accepted, in order, and leaves the same records |
| `Retimed.RetimedVerdict` | src/nest_adapters/identity.py:190-288 | such a peer accepts exactly the genuine signatures of a learned key whose retimed window holds both ticks |
| `Retimed.TrueTicksHoldChain` | src/nest_adapters/identity.py:190-242 | rotations with their true ticks alone give the prefix of the owner's history |
| `KeyHistory.HeldKeysDescend` | src/nest_adapters/identity.py:190-236 | under any announcements at all, every key held for a peer is linked to the registered key by signatures of held keys over the bytes of the next (a signature over a message counts as one over its bytes) |
| `PeerActive.ResolvedKey` | src/nest_adapters/identity.py:112-116 | the key a peer resolves an agent to, under every schedule of rotations and signed messages with any ticks: the first still open among those learned before the first announcement that brought nothing new, or else what that one announced |
| `PeerActive.ActiveIsLatest` | src/nest_adapters/identity.py:112-116 | under every such schedule that is the latest known key if and only if nothing extra came before it was learned, the earlier windows were ended, and its own was not ended by a message or the first thing extra repeated its announcement |
| `PeerActive.RotationsResolve` | src/nest_adapters/identity.py:112-116 | with rotations alone, at finite ticks: if and only if no announcement was repeated before the latest key was learned |
| `PeerActive.StaleActiveExample` | src/nest_adapters/identity.py:112-116 | announcement 0 heard twice, then announcement 1: the peer is resolved to key 1, not 2 |
| `PeerActive.StampIsActive` | src/nest_adapters/identity.py:112-116 | one signed message heard as a rotation at a finite tick: the peer is resolved to the bytes of that message |
| `Identity.RotatingIdentity.constructor` | src/nest_adapters/identity.py:68-77 | one open key issued at tick 0, clock 0, no rotation yet |
| `Identity.RotatingIdentity.AdvanceTo` | src/nest_adapters/identity.py:81-88 | sets the clock and nothing else |
| `Identity.RotatingIdentity.ActiveRecord` | src/nest_adapters/identity.py:112-116 | the scan returns the very record object at the position of the active record |
| `Identity.RotatingIdentity.FindRecord` | src/nest_adapters/identity.py:238-242 | the scan returns the very record object at the position of the first match |
| `Identity.RotatingIdentity.Sign` | src/nest_adapters/identity.py:120-139 | the signature of the active key at the given tick, by default the clock |
| `Identity.RotatingIdentity.RotateKey` | src/nest_adapters/identity.py:143-174 | the new state in full: active window closed, next derived key appended and open, announcement stored; unchanged on failure |
| `Identity.RotatingIdentity.ObserveRotation` | src/nest_adapters/identity.py:190-220 | the new state in full when continuity holds; otherwise the error (unknown prior key, unreadable key, bad signature) and no change to any record |
| `Identity.ObserveMeans` | src/nest_adapters/identity.py:207-220 | which announcement is refused with which error, and that an accepted one changes the records of its agent and nothing else |
| `Identity.RotatingIdentity.RegisterPeer` | src/nest_adapters/identity.py:224-236 | the peer's list becomes the one open key from tick 0 |
| `Identity.RotatingIdentity.VerifyAsOf` | src/nest_adapters/identity.py:253-288 | the verdict of the specification: signer, lookup, signature and both window checks; or the error raised when the key looked up is not 32 bytes |
| `Identity.RotatingIdentity.Verify` | src/nest_adapters/identity.py:244-251 | the same as of the clock |
| `Identity.ChainNeverRaises` | src/nest_adapters/identity.py:280-283 | verification against keys an owner derived never raises |
| `IdentityRuns.OwnHistory` | src/nest_adapters/identity.py:143-174 | after every run an agent's own records are the chain of its rotation ticks |
| `IdentityRuns.OwnAnnouncement` | src/nest_adapters/identity.py:166-188 | what a rotation leaves to broadcast is the honest announcement with the next number, given field by field |
| `IdentityRuns.OwnVerdicts` | src/nest_adapters/identity.py:253-288 | after every run with a monotone clock, an agent accepts exactly the genuine signatures of the key in service at both ticks, and never raises |
| `IdentityRuns.SignedNowVerifies` | src/nest_adapters/identity.py:120-139 | signing never fails, and what is signed now verifies now, for its own payload only |
| `IdentityRuns.SignedAtVerifies` | src/nest_adapters/identity.py:120-139 | what is signed for a given tick carries that tick, and verifies as of it, for its own payload only, exactly when the tick is not before the latest rotation |
| `IdentityRuns.OwnVerdictsFinal` | src/nest_adapters/identity.py:253-288 | outcomes about ticks before the present never change, whatever calls follow |
| `IdentityRuns.PeerHistory` | src/nest_adapters/identity.py:190-236 | a peer's records depend only on its last registered key and the announcements naming it heard since |
| `IdentityRuns.PeerKeysDescend` | src/nest_adapters/identity.py:190-236 | after every run of calls, each key held for a peer descends in this way from the registered key; with no registration none is held |
| `IdentityRuns.PeerAgrees` | src/nest_adapters/identity.py:190-288 | two objects, two runs: peer and owner agree on all ticks before the closing tick of the last key the peer knows, under every schedule |
| `IdentityRuns.PeerRunFinality` | src/nest_adapters/identity.py:190-288 | whatever calls follow, outcomes on a peer about ticks before c are final, raising included, while the announcements heard of it are not before c, move no closing tick forward and add no unreadable key under a new id |
| `IdentityRuns.PeerRunHonestFinality` | src/nest_adapters/identity.py:190-288 | outcomes on an owner before the closing tick of the last key known are final at the peer object, raising included, however further honest announcements are delivered |
| `Validator.ValidateIdentityRotation` | src/nest_adapters/validators.py:39-94 | the three loops over a shared verifier object compute the specification's report, with as many rotations and signatures as the trace has, or the error that the second or third loop raises |
| `Validator.ReportCounts` | src/nest_adapters/validators.py:56-86 | every report counts the rotation announcements and the signed messages of its trace, and shows real windows exactly when there is one of each |
| `Validator.NothingLearned` | src/nest_adapters/validators.py:47 | before any event only the key of agent `__validator__` under the seed `validator` is known |
| `Validator.LastIdentityCounts` | src/nest_adapters/validators.py:51-55 | the last identity announcement of an agent is the one that counts |
| `Validator.LearnKeys` | src/nest_adapters/validators.py:51-55 | the first loop registers the last identity announcement of each agent |
| `Validator.ApplyRotations` | src/nest_adapters/validators.py:56-61 | the second loop applies every rotation, stopping at the first that does not link up |
| `Validator.Judge` | src/nest_adapters/validators.py:63-80 | the third loop counts the rotating signatures and collects exactly those out of window, or raises on the first whose key cannot be read |
| `Validator.LearnPerAgent` | src/nest_adapters/validators.py:51-55 | what the first pass leaves for an agent depends on that agent's identity announcements only |
| `Validator.RebuildPerAgent` | src/nest_adapters/validators.py:56-61 | rebuilding succeeds if and only if each agent's own rotations link up, and then gives each agent the history of its own announcements |
| `ValidatorLaws.JudgedPerAgent` | src/nest_adapters/validators.py:49-80 | the validator raises exactly when some agent's own announcements do not link up or a signed event names a held key that cannot be read; otherwise each signed event is judged by its signer's history alone |
| `ValidatorLaws.ReorderingInvariant` | src/nest_adapters/validators.py:51-94 | reorderings that keep each agent's identity announcements in order and its rotations in order change no result and no count |
| `ValidatorLaws.OthersDoNotInterfere` | src/nest_adapters/validators.py:51-80 | other agents' events never change an agent's verdicts |
| `OnePass.TwoPassesAgreeWithOne` | src/nest_adapters/validators.py:50-80 | on every time-ordered trace of honest rotations with no signature ahead of its event or before a rotation in its tick, signed messages being otherwise unrestricted, the two passes find what a one-pass verifier finds |
| `OnePass.ReadOnceExpected` | src/nest_adapters/validators.py:50-80 | the one-pass verifier never refuses such a trace, knows each agent's true chain so far and reports exactly the events that chain condemns |
| `OnePass.TimelyVerdict` | src/nest_adapters/validators.py:63-80 | the validator's exact verdict on such a trace: a signed event of an introduced agent passes if and only if the key serving its tick serves the tick it claims, is the key it names and made the signature; everything signed in the name of an agent never introduced is reported |
| `HonestTrace.HonestSigner.OnStart` | src/nest_adapters/scenarios_builtin/identity_rotation.py:45-64 | clock, identity announcement and pre-rotation signature, in that order |
| `HonestTrace.HonestSigner.OnMessage` | src/nest_adapters/scenarios_builtin/identity_rotation.py:66-83 | on the signal: clock, rotation, announcement, post-rotation signature; otherwise nothing |
| `HonestTrace.HonestMessages` | src/nest_adapters/scenarios_builtin/identity_rotation.py:45-83 | every message of an honest trace, field by field: first keys, steps to next keys, and `-pre` or `-post` bodies signed by the signer's own key, all at the tick of their event |
| `HonestTrace.KeysBeforeSignatures` | src/nest_adapters/scenarios_builtin/identity_rotation.py:45-83 | every signature comes right after the event that makes its key known, at the same tick |
| `HonestTrace.WiredKnowsEveryFirstKey` | src/nest_adapters/scenarios_builtin/identity_rotation.py:124-129 | the wiring loops register every other agent's first key and keep one's own |
| `HonestTrace.SignerIsChain` | src/nest_adapters/scenarios_builtin/identity_rotation.py:45-83 | a signer's own records are the chain of its rotate signals |
| `HonestTrace.HonestHistory` | src/nest_adapters/validators.py:49-61 | for every honest run the rebuilt history of each signer is its true key chain |
| `HonestTrace.HonestTraceVerdict` | src/nest_adapters/validators.py:49-94 | any number of signers, signals and interleavings: continuity never fails, and no out-of-window use is reported if and only if every signer's ticks strictly increase |
| `HonestTrace.LateRotationKills` | src/nest_adapters/validators.py:63-80 | a signature is reported if and only if its signer's next rotation is no later than it |
| `HonestTrace.HonestCounts` | src/nest_adapters/validators.py:56-77 | the validator reports one rotation per rotate signal and one signature per signal of either kind |
| `HonestTrace.HonestTraceHasRealWindows` | src/nest_adapters/validators.py:82-86 | the first result passes if and only if some signer rotates at least once |
| `Topology.NamesDistinct` | src/nest_adapters/scenarios_builtin/reputation_receipts.py:64-71 | honest and ring ids are all distinct |
| `Topology.NameText` | src/nest_adapters/scenarios_builtin/reputation_receipts.py:64-71 | `honest-` or `ring-` and the index |
| `ReputationRun.NodeNaming` | src/nest_adapters/scenarios_builtin/reputation_receipts.py:64-71 | so the printed ids are an injective naming, as the results about runs assume |
| `Topology.BuildTopology` | src/nest_adapters/scenarios_builtin/reputation_receipts.py:119-149 | the loops append exactly the specified edge list, for any two sizes |
| `Topology.EdgeMembers` | src/nest_adapters/scenarios_builtin/reputation_receipts.py:136-147 | which edges there are: both neighbours on the honest cycle, every other agent in the ring, nothing across |
| `Topology.ComponentsAreThePopulations` | src/nest_adapters/scenarios_builtin/reputation_receipts.py:122-126 | one agent reaches another if and only if both are honest or both are in the ring, so these are exactly the strongly connected components |
| `Topology.HonestEdgeCount` | src/nest_adapters/scenarios_builtin/reputation_receipts.py:136-141 | 2n distinct edges in the honest cycle for n >= 3 (n below that) |
| `Topology.Densities` | src/nest_adapters/scenarios_builtin/reputation_receipts.py:23-28 | k(k-1) ring edges, density 1; the back-edged cycle is below 0.8 if and only if n >= 4 |
| `Topology.SplitByIssuer` | src/nest_adapters/scenarios_builtin/reputation_receipts.py:237-239 | the dictionary loop gives each agent the edges it issues, in order |
| `Topology.ReceiptsPerAgent` | src/nest_adapters/scenarios_builtin/reputation_receipts.py:236-243 | every honest agent issues two edges, every ring agent one per other ring agent, others none |
| `ReputationRun.ReceiptIssuerAgent.OnStart` | src/nest_adapters/scenarios_builtin/reputation_receipts.py:175-196 | the loop adds to the ledger one verifying receipt per own edge, by its issuer about its counterparty, and greets every counterparty |
| `ReputationRun.ReputationBooks` | src/nest_adapters/scenarios_builtin/reputation_receipts.py:175-196 | in any order of starts each start adds its receipts to its own agent's count and to nobody else's, and nothing falls back to the heuristic |
| `ReputationRun.LedgerTotal` | src/nest_adapters/scenarios_builtin/reputation_receipts.py:175-196 | the ledger numbers two receipts per honest start and k-1 per ring start |
| `ReputationRun.SampleCounts` | src/nest_adapters/scenarios_builtin/reputation_receipts.py:221-244 | with every agent started once, sample counts are 2 and k-1 |
| `ReputationRun.LedgerOfStarts` | src/nest_adapters/scenarios_builtin/reputation_receipts.py:74-196 | in any order of starts, repeats included, the verifying receipts by one agent about another number the edges from the one to the other, once per start |
| `ReputationRun.LedgerIsTopology` | src/nest_adapters/scenarios_builtin/reputation_receipts.py:74-196 | with every agent started once, in any order, the ledger is the topology: as many receipts by one agent about another as there are edges |
| `Trust.AgentReceiptsTrust.Report` | src/nest_adapters/trust_receipts.py:190-230 | the new state in full: a verifying receipt goes to the ledger, everything else to the reported agent's heuristic scores |
| `Trust.AgentReceiptsTrust.RecordFallback` | src/nest_adapters/trust_receipts.py:232-239 | the score of the evidence kind is appended to the agent's list |
| `Trust.NothingLost` | src/nest_adapters/trust_receipts.py:207-239 | ledger size plus all list lengths equals the number of reports, and the ledger holds only verifying receipts |
| `Trust.StoreOfReports` | src/nest_adapters/trust_receipts.py:207-239 | the ledger holds the verifying receipts and an agent's list the scores of the other reports about it, in order |
| `Trust.LedgerOfReports` | src/nest_adapters/trust_receipts.py:207-221 | the ledger holds a verifying receipt once per report that carried it, whatever the kind of the report |
| `Trust.SumIsTally` | src/nest_adapters/trust_receipts.py:232-239 | an agent's heuristic scores number the reports about it and sum to its positive reports, neutral ones counting half |
| `Trust.ScoreIsMean` | src/nest_adapters/trust_receipts.py:165-175 | without receipts the score is the mean of the heuristic scores; with none at all it is the neutral prior |
| `Trust.ReputationInRange` | src/nest_adapters/trust_receipts.py:120-175 | score and confidence stay in [0, 1] after every sequence of reports |
| `Trust.OrderIrrelevant` | src/nest_adapters/trust_receipts.py:120-175 | every permutation of the reports gives the same ledger contents and sample counts, and the same reputation to agents without receipts |
| `Trust.NewsMovesScore` | src/nest_adapters/trust_receipts.py:165-175 | good news never lowers a heuristic score, bad news never raises it, confidence never falls |
| `Trust.ConfidenceNeedsHundred` | src/nest_adapters/trust_receipts.py:167-174 | heuristic confidence is one per cent per report and full exactly from one hundred on |
| `Trust.NormalizeMonotone` | src/nest_adapters/trust_receipts.py:72-85 | a higher raw score never ranks lower, and none stays 0 |
| `Trust.AgentReceiptsTrust.Score` | src/nest_adapters/trust_receipts.py:74-175 | with receipts: their raw number, the saturating map of the category score and the corroboration rate of those that survive severance; without: the mean of the heuristic scores (0.5 if none) and a confidence of one hundredth per score up to 1 |
| `Trust.MineMeans` | src/nest_adapters/trust_receipts.py:152 | an agent's own receipts are those that name it as principal, each as often as the ledger has it |
| `DataFacts.ArpDataFacts.Publish` | src/nest_adapters/datafacts_arp.py:90-113 | commitment, receipt by the owner and dataset stored under the URL of the name, each given field by field; grants kept |
| `DataFacts.ArpDataFacts.Fetch` | src/nest_adapters/datafacts_arp.py:115-137 | not found, tampered, or the dataset itself: served exactly when its content now is what was published |
| `DataFacts.ArpDataFacts.RequestAccess` | src/nest_adapters/datafacts_arp.py:139-162 | one grant and one receipt by the present owner appended, for any known URL; index alignment kept |
| `DataFacts.FetchThenRequest` | src/nest_adapters/datafacts_arp.py:115-162 | a grant is given exactly for a known URL, so it goes with a successful fetch exactly when the content is intact; its receipt is the publisher's exactly when the dataset still names that owner |
| `DataFacts.TamperThenRequest` | src/nest_adapters/datafacts_arp.py:115-162 | a published dataset that was written to is refused by fetch and granted by request_access |
| `DataFacts.ArpDataFacts.VerifyFreshness` | src/nest_adapters/datafacts_arp.py:164-172 | true exactly for published URLs |
| `DataFacts.AppendStaysAligned` | src/nest_adapters/datafacts_arp.py:158-161 | grants and grant receipts stay aligned index by index for every URL |
| `Registry.SmBridgeRegistry.Register` | src/nest_adapters/registry_smbridge.py:112-129 | the card is stored exactly when the gate accepts it |
| `Registry.SmBridgeRegistry.Deregister` | src/nest_adapters/registry_smbridge.py:158-165 | the agent's card is removed, if any |
| `Registry.SmBridgeRegistry.Lookup` | src/nest_adapters/registry_smbridge.py:131-138 | exactly the cards held that offer every capability asked for and have the pattern in their name |
| `Registry.SmBridgeRegistry.AgentFacts` | src/nest_adapters/registry_smbridge.py:167-177 | the agent's card under the did of that agent, if it has a card |
| `Registry.SmBridgeRegistry.Index` | src/nest_adapters/registry_smbridge.py:179-190 | one projection per card in registration order, under the did of its agent, each accepted by the gate again |
| `Registry.Dict.Put` | src/nest_adapters/registry_smbridge.py:127 | dictionary assignment: a present key keeps its place, a new one goes last |
| `Registry.Dict.Pop` | src/nest_adapters/registry_smbridge.py:165 | dictionary removal takes out exactly that key and leaves the rest in order |
| `Registry.MatchesMeans` | src/nest_adapters/registry_smbridge.py:192-196 | all asked capabilities offered and the pattern anywhere in the name; empty or absent asks for nothing |
| `Registry.LookupAfterRun` | src/nest_adapters/registry_smbridge.py:112-165 | after every run, lookup returns exactly the matching cards that were the last effective word on their agent, no agent twice |
| `Registry.ReRegisterKeepsPlace` | src/nest_adapters/registry_smbridge.py:127 | registering again leaves an agent at its place |
| `Marketplace.SharedLayers.SellerOnStart` | src/nest_adapters/scenarios_builtin/sm_marketplace.py:53-72 | card registered and dataset published, or neither when the card is refused |
| `Marketplace.SharedLayers.BuyerOnMessage` | src/nest_adapters/scenarios_builtin/sm_marketplace.py:104-140 | on the signal, the loop over the sellers found makes the specified purchases in the shared layers; otherwise nothing |
| `Marketplace.SharedLayers.BuyOne` | src/nest_adapters/scenarios_builtin/sm_marketplace.py:123-140 | one purchase in full: fetch, grant, credit, confirmation |
| `Marketplace.UrlsDistinct` | src/nest_adapters/scenarios_builtin/sm_marketplace.py:125 | different sellers have different dataset URLs |
| `MarketRuns.MarketRun` | src/nest_adapters/scenarios_builtin/sm_marketplace.py:53-140 | in every run, whatever the order: no purchase fails, and registry, grants, ledger and confirmations hold exactly what the listings at each purchase call for |
| `MarketTotals.PurchasesBooked` | src/nest_adapters/scenarios_builtin/sm_marketplace.py:104-140 | in every run the receipts by a seller about a buyer, and the confirmations from that buyer naming its dataset, number the purchases by the buyer since the seller was listed |
| `MarketTotals.RoundCreditsOffers` | src/nest_adapters/scenarios_builtin/sm_marketplace.py:119-140 | in any market, whatever cards are listed, a buyer credits exactly the agents offering `sell_data`, once each, and its round fails exactly when one of them has no dataset |
| `MarketTotals.SellerOffers` | src/nest_adapters/scenarios_builtin/sm_marketplace.py:63-72 | what a seller on offer has listed and published, field by field |
| `MarketTotals.OnlyOffersPublished` | src/nest_adapters/scenarios_builtin/sm_marketplace.py:63-72 | what the registry refuses is not published |
| `MarketTotals.SellerBooks` | src/nest_adapters/scenarios_builtin/sm_marketplace.py:104-140 | in every run a seller's sample count is the number of purchases since it was listed, and its dataset has one grant for each, in order, with a receipt signed by the seller that names the buyer |
| `MarketTotals.FactoryTotals` | src/nest_adapters/scenarios_builtin/sm_marketplace.py:53-161 | with n agents and purchases after all starts: sellers x buyers receipts and confirmations, one of each for every seller and buyer, sample count = number of buyers, exactly one grant per buyer on every dataset |
| `MarketTotals.MarketplaceFactory` | src/nest_adapters/scenarios_builtin/sm_marketplace.py:143-161 | the loop builds the specified agents |
| `MarketTotals.FactoryRoles` | src/nest_adapters/scenarios_builtin/sm_marketplace.py:156-161 | n distinct agents, the even ones sellers and the odd ones buyers |
| `MarketTotals.FactoryCounts` | src/nest_adapters/scenarios_builtin/sm_marketplace.py:158-160 | n/2 rounded up sellers and n/2 rounded down buyers |
| `AgentNames.AgentNaming` | src/nest_adapters/scenarios_builtin/sm_marketplace.py:159 | `agent-0`, `agent-1`, ... are all different |
| `AgentNames.AgentText` | src/nest_adapters/scenarios_builtin/sm_marketplace.py:159 | `agent-` and the index |
| `Auth.DidAuth.Issue` | src/nest_adapters/auth_didkey.py:69-86 | signed by the subject's own key over the given scopes, and accepted on any instance exactly while not revoked there and at most an hour past the clock |
| `Auth.DidAuth.Verify` | src/nest_adapters/auth_didkey.py:88-140 | accepted exactly when this text is not revoked, signed by the subject it names over these very claims and unexpired, with that subject, those scopes and those times; each error exactly when its check is the first to fail |
| `Auth.DidAuth.Revoke` | src/nest_adapters/auth_didkey.py:142-149 | from then on this text is refused, and every other one, also of the same fields or the same signature, is judged as before |
| `Auth.AcceptanceMeans` | src/nest_adapters/auth_didkey.py:88-140 | accepted if and only if its text is not revoked here, signed over these very claims by the key of the subject it names, and not expired |
| `Auth.IssuedVerifies` | src/nest_adapters/auth_didkey.py:69-140 | an issued token verifies on any instance if and only if it is not revoked there and the clock is at most the issue time plus 3600; it then names its subject, scopes and times |
| `Auth.NoRelabelling` | src/nest_adapters/auth_didkey.py:115-127 | an issued signature carried over to any other claims is refused |
| `Auth.RevocationIsFinal` | src/nest_adapters/auth_didkey.py:142-149 | after any calls a text verifies exactly when it would on a new instance and this very text was never revoked |
| `Auth.GoodCredentialStaysUsable` | src/nest_adapters/auth_didkey.py:100-149 | no calls take a good credential out of service: after any number of revocations it is accepted in some base64 spelling |
| `Auth.RespelledIsAccepted` | src/nest_adapters/auth_didkey.py:100-149 | an issued token that was revoked is still accepted in another spelling |
| `Handshake.AuthAgent.OnStart` | src/nest_adapters/scenarios_builtin/auth_handshake.py:45-56 | one token, signed by the agent itself for the one scope, goes to the peer |
| `Handshake.AuthAgent.OnMessage` | src/nest_adapters/scenarios_builtin/auth_handshake.py:58-81 | only a token that is unrevoked, self-signed, unexpired and carries the scope is answered, with one grant of its scopes to its subject |
| `Handshake.AuthHandshakeFactory` | src/nest_adapters/scenarios_builtin/auth_handshake.py:84-101 | the loop builds the specified ring |
| `Handshake.PairedWithNext` | src/nest_adapters/scenarios_builtin/auth_handshake.py:97-101 | each agent presents to the next one round |
| `Handshake.PairedOnce` | src/nest_adapters/scenarios_builtin/auth_handshake.py:97-101 | n names make n agents |
| `Handshake.StepMovesOne` | src/nest_adapters/scenarios_builtin/auth_handshake.py:45-81 | every step moves exactly one agent one phase on: asleep, presenting, granting, finished |
| `Handshake.HandshakeCompletes` | src/nest_adapters/scenarios_builtin/auth_handshake.py:45-101 | under every order: at most 3n steps, stuck exactly at 3n, never more than 2n messages; when stuck exactly 2n, none in flight, one grant per agent |
| `Handshake.EveryoneMeets` | src/nest_adapters/scenarios_builtin/auth_handshake.py:45-101 | when nothing more can happen, each agent has received exactly one token, signed by the agent before it in the ring |
| `Handshake.EveryRunCanFinish` | src/nest_adapters/scenarios_builtin/auth_handshake.py:45-101 | every run extends to one of exactly 3n steps |

## Left out

- Ed25519, SHA-256 and the internals of ARP receipts: library code; ideal signatures, injective hashes and a verification flag stand for them.
- Severance and scoring of `sm-arp` (`_effective_receipts`, `reputation_score_v2`, `corroboration_rate`): functions given to the trust layer; the topology facts they depend on are proved, the severing rule is not.
- `exp` beyond monotonicity and its range on non-negative arguments, and floating-point rounding everywhere.
- JSON parsing and printing in `wire.py`, envelopes, announcements, tokens and receipts, and malformed hex in them: messages are datatypes, and a float tick is assumed to print injectively and to parse back to itself.
- Keys of 32 bytes that are not points of the curve: a key of any other length raises, as in the source, and every key of 32 bytes is taken to be usable.
- NaN and negative infinity as ticks: a tick is a real or positive infinity.
- Keys across different seeds: `Encodings.KeyMaterialCollisions` says exactly when two seeds collide, but `Crypto.DerivedKey` keeps all derived keys apart.
- Chance coincidences of bytes: a derived key is taken never to read as a signed message, and `Crypto.OtherKey` stands for bytes that are neither.
- Exponent notation of printed ticks: their length is that of the decimal expansion, up to 17 decimals.
- Which texts spell a signature: the alternatives to the one that encoding gives are all there, as many as decoding that skips foreign characters allows, but not as the base64 strings they are; likewise what tells two payload texts with the same fields apart is one opaque string.
- A token payload that is JSON but not an object, or whose fields have other types than strings and numbers.
- Missing plugins (`ctx.plugins.get` returning nothing), the simulator, YAML, the command line, trace files and `compare_trust.py`.
- sm-bridge validation and the AgentFacts fields: an abstract accept predicate, and a projection to the did and the card.
- Whom a signer sends its signed messages to, and reporter and subject of evidence: the validator and the trust layer do not read them.
- `asyncio.Queue` subscriptions of the registry.
- Attestation, staking, `rotation_announcement` before any rotation, `register_peer` with a private key, and `identity_didkey.py`: single-branch behaviour; `did_for` is an injective function.
- In-place writes to a receipt handed out by `provenance`: receipts are values; writes to dataset objects are modelled.
- `nest_core` records beyond the fields the adapters read: `nest_core` is not part of this model; the access tier has only the value the code uses.
- OnePass.TwoPassesAgreeWithOne: agreement is stated for honest rotations and at most one identity announcement per agent, made before anything is signed in its name; on other traces a single reading judges before later announcements are known.
- Handshake.HandshakeCompletes: says nothing about an auth layer in which tokens are revoked during the run.
