# Verified model of valiss

Valiss is a chain of signed tokens in four levels: an operator signs account tokens, an account signs
user tokens, a user signs messages and requests. Around the chain sit protocols with state: a cache
of chains that two parties negotiate over, a keyring of trusted operators, a request verifier with a
nonce cache and an allowlist, and a credentials file. This project models that logic in Dafny and
proves what the repository promises of it, over every input, every run and every interleaving.

## How the model is built

- **Library code is a record of functions.** `Tokens.Lib` holds what the Go code takes from base64,
  JSON, nkeys, SHA-256 and RFC 3339. The verification results hold for every such record. Results
  about minted tokens and signed requests ask for the laws in `Tokens.Lawful`: decoding undoes
  encoding (for JSON: of documents Go can marshal, with valid UTF-8 strings), the URL-safe base64
  alphabet has no dot, colon or newline, different instants are rendered differently, on one line and
  with a colon before any dot, and a rendering parses back exactly for the years 0 to 9999. `Lawfulness.LawsCanHold` shows these laws can hold together.
  Nothing is assumed of hashes: where a result depends on one, it names the hashes it compares.
- **Signatures are ideal.** `Tokens.World` keeps the set of signed (key, bytes) pairs, and a key
  verifies exactly those. `Tokens.View` is what a verifying party sees: a decoder and a signature
  check. Verification functions take a view, so their properties hold for any decoder.
- **Time** is an integer count of nanoseconds. `exp` and `nbf` are whole seconds with 0 for absent;
  Go's zero time means absent too, so an expiry at that instant does not expire, as in the code.
- **Options** are a datatype folded left to right into a configuration.
- **Methods and specifications.** Where the code updates things step by step (the caches, the
  allowlist, the keyring being filled, the verifier, the receiver, the file printer and parser) there
  are classes and loops whose `ensures` say which specification function they compute; the lemmas
  then state what that function means. The clock is a parameter wherever the code reads it.

| file | content |
|---|---|
| `Tokens.dfy` | wire documents, decoding, the three chain-level verifications |
| `Lawfulness.dfy` | a record of functions that meets the laws |
| `OptionLists.dfy` | lists of options read without applying them |
| `Minting.dfy` | what a list of issue options makes of a token, from mint to verification |
| `Issuing.dfy` | options, the four Issue functions, stamping and signing |
| `Signing.dfy` | request signatures and the contexts they cover |
| `Keyrings.dfy`, `KeyringRules.dfy` | building a keyring; exactly which lists make one |
| `Messages.dfy`, `MessageRules.dfy` | verifying a message, under one anchor or a keyring; exactly which are accepted |
| `Emission.dfy` | minting from creds, and when the minted message is accepted |
| `Negotiation.dfy`, `Delivery.dfy` | chain cache, receiver step, emitter exchange; when a minted message is served |
| `Interleaving.dfy` | any number of receiver calls on one cache |
| `Replay.dfy`, `ReplayBound.dfy` | the nonce cache against a log; how long a replay is refused |
| `Allowlists.dfy`, `Revocation.dfy` | allowlist and floors; what an update cuts off |
| `Requests.dfy`, `RequestRules.dfy`, `RequestTrials.dfy` | the request verifier; exactly which requests are accepted; keyring against trial |
| `Provenance.dfy` | runs of honest and other keys; who signed what was accepted |
| `CredsFile.dfy`, `CredsRules.dfy`, `CredsRoundTrip.dfy` | printer and parser; exactly what is printed and parsed; what comes back, whole or cut short |

A specification function that follows the code is not the last word on it: for each of the verdicts there
is a second definition, over the decoded documents, the list of options, the lines of the file or the
instants in nanoseconds, and a lemma that the two agree on every input (`DecodesExactly`, `*Mint`,
`AcceptedExactly`, `AuthenticatedExactly`, `DetachedExactly`, `UncachedExactly`, `CachedExactly`,
`KeyringExactly`, `ParsedExactly`, `SectionExactly`, `VersionExactly`).

## Where the code and its documentation differ

The model follows the code; each item names the lemmas that state the difference.

- **Pinned chain and detached headers.** `chain.go:10-12` and `README.md:178` say only chains that
  survived full verification enter the cache. With a chain pinned in the verify options
  (`contrib/httpsig/middleware.go:143-149`) the message is verified under the pinned chain while the
  detached headers are what gets stored: `PinnedChainStoresAnything`, and as a whole run
  `PinnedRunCachesAnything`. A receiver keeps the promise in every run if and only if it pins no chain,
  has no cache, or can accept no message at all: `OnlyVerifiedExactly`.
- **Retention of nonces.** `verifier.go:207-208` calls twice the skew the longest a replay could land.
  An entry is dropped at its expiry (`replay.go:30`), while the window includes its last instant
  (`sign.go:68`), so a request stamped exactly one skew ahead passes again exactly two skews later:
  `EdgeIsExact`. Everywhere else the retention is long enough: `ReplayOnlyAtTheEdge`.
- **Window edges.** RFC 7519 sections 4.1.4 and 4.1.5 reject on or after `exp`; the code still accepts
  at the expiry itself, and widens both ends by the skew: `DeliveredWindow` and `MintedMessageWindow`
  give the accepted instants exactly, ends included.
- **Identical tokens collapse by jti** (`keyring.go:36-37`), but the jti is read from the token and not
  recomputed (`claims.go:254-269`). With two different operator tokens under one jti, the keyring holds
  whichever came first: `SharedJtiKeepsTheFirst`. A list makes the same keyring in every order if and
  only if that does not occur in it: `OrderIsImmaterialExactly`.

## Model

| member | source | states |
|---|---|---|
| Tokens.DecodeAssembled | claims.go:151-246 | a token assembled for a claims document decodes to exactly that document if and only if its issuer is a key that signed it; otherwise to nothing |
| Tokens.DecodedWasSigned | claims.go:227-246 | whatever decodes was signed by the issuer it names, over its own first two segments |
| Tokens.DecodesExactly | claims.go:183-270 | a token decodes to a document exactly when it is three dot-free segments, the first reading as a version 1 header, the second as that document, whose issuer is a key that signed both with the third |
| Tokens.ClaimsAreRead | token.go:437-449 | id, issuer, subject and the three times are read off the document, each time in whole seconds with zero for absent |
| Tokens.WindowInSeconds | token.go:437-468 | the expiry and not-before checks are a window on the clock in whole seconds: to `exp` times one second plus the skew, from `nbf` less the skew, zero and the zero time meaning none |
| Tokens.SignedInputDetermines | claims.go:183-246 | a decoding token whose signed bytes are those of a document carries that document and no other |
| Tokens.SplitJoins | claims.go:183-207 | the segments of a token hold no dot and join back to the token, so its signed bytes are determined by it |
| Tokens.SeenMonotone | claims.go:211-246 | signatures made later never change what a token decodes to or invalidate a request signature |
| Signing.SignedRequestVerifies | sign.go:51-83 | a signed request is accepted exactly inside the closed window of one skew on both sides of its timestamp, if that timestamp is in the years 0 to 9999, and never otherwise |
| Signing.SignatureVerifiesExactly | sign.go:41-83 | a request signature is accepted exactly for a timestamp that reads, no further than the skew from the clock, and a key's signature over the version tag, that instant and the context's hash |
| Signing.PayloadUnambiguous | sign.go:41-44 | equal signed bytes mean the same instant and the same context hash |
| Signing.RequestContextUnambiguous | contrib/httpauth/transport.go:93-99 | equal HTTP contexts mean equal method, host, path and nonce, when the first three have no newline |
| Signing.MethodContextUnambiguous | contrib/grpcauth/credentials.go:97-99 | equal gRPC contexts mean equal method and nonce |
| Signing.ContextsDisjoint | contrib/httpauth/transport.go:93-99 | no HTTP context is ever a gRPC context |
| Signing.SignedBytesPinTheRequest | sign.go:41-44 | equal signed request bytes mean the same instant and the same whole operation, transport and nonce included, unless two different contexts share a SHA-256 |
| Signing.PayloadIsNotMinted | sign.go:18-44 | no request payload is the signing input of any token |
| Signing.PayloadIsNoToken | sign.go:18-44 | no token, minted or forged, decodes on the strength of a request signature |
| Issuing.Signers.EncodeV1 | claims.go:151-177 | minting stamps issuer, time and jti, adds exactly one signature, and returns the token that carries it |
| Issuing.Signers.FoldOptions | token.go:116-233 | the loop over options ends in the left fold of their effects |
| Issuing.Signers.IssueOperator | token.go:250-276 | an operator token is minted exactly for an operator key with options of that level; a refusal signs nothing |
| Issuing.Signers.IssueAccount | token.go:281-308 | an account token is minted exactly for an operator key, an account subject and options of that level; a refusal signs nothing |
| Issuing.Signers.IssueUser | token.go:322-346 | a user token is minted exactly for an account key, a user subject and options of that level; a refusal signs nothing |
| Issuing.Signers.IssueMessage | message.go:82-144 | a message is minted exactly for a user key over itself, with an expiry and an embedded chain ending at that key if any; a refusal signs nothing |
| Issuing.MintedDecodes | claims.go:151-246 | from the mint on, a minted token decodes to what its issuer stamped |
| Issuing.MintedOperatorVerifies | token.go:351-371 | a minted operator token verifies under its own key only, with its name, window, epoch and extensions, and never as an account or user token |
| Issuing.MintedAccountVerifies | token.go:376-396 | a minted account token verifies under the operator that minted it only, names its tenant and window, and never passes at another level |
| Issuing.MintedUserVerifies | token.go:401-422 | a minted user token verifies under the account that minted it only, keeps its bearer mark and window, and never passes at another level |
| Minting.FoldGathers | token.go:116-233 | after the fold each field is that of the last option setting it, or its default, and the bearer mark is there exactly when listed |
| Minting.FoldFaults | token.go:179-230 | a list is refused exactly for a checksum that is no lowercase-hex digest, an extension without a name, one repeated, or one that cannot be encoded; otherwise the extensions are exactly those listed |
| Minting.SecondsReadBack | token.go:145-157 | an instant given as an option is read back as the start of its second |
| Minting.OperatorMint | token.go:250-276 | over the whole option list: an operator token is minted exactly for an operator key and a sound list with nothing of another level, and verifies under that key alone, with the last name and epoch, the listed extensions, and the window asked for in nanoseconds |
| Minting.AccountMint | token.go:281-308 | the same for account tokens, with the roles of operator and tenant |
| Minting.UserMint | token.go:322-346 | the same for user tokens, the bearer mark there exactly when listed |
| Minting.MessageMint | message.go:82-144 | the same for messages: exactly for a user key, with an expiry that can be written, no name, no bearer mark, and an embedded chain that ends at the key; the message decodes to what was asked, its jti the hash of the rest |
| Keyrings.NewKeyring | keyring.go:42-80 | building succeeds exactly when the list is nonempty, every token is a self-signed operator token, and the operators kept (first of each jti) pairwise differ in (operator, epoch) and share a name exactly when they share an operator; the three maps then hold exactly those operators, and the entries are those of `RingOf` |
| Keyrings.Keyring.Add | keyring.go:48-75 | one token is taken exactly when it is readable and repeats a jti or is compatible with everything registered; then the maps hold what is kept so far |
| Keyrings.Keyring.AgreesOnName | keyring.go:67-71 | the inner loop passes exactly when every entry of that operator has that name |
| Keyrings.ConflictChecks | keyring.go:60-71 | the three map checks together mean compatible with every registered operator |
| Keyrings.NamesAreOneToOne | keyring.go:64-71 | in a keyring two names of one operator are the same name, and every operator is named |
| Keyrings.AdmissibleIffRegistrable | keyring.go:36-80 | if a jti identifies its claims, success is: nonempty, all self-signed operator tokens, and any two with different jti compatible |
| Keyrings.RegistrationIsOrderFree | keyring.go:42-80 | then the sequential rule equals the order-free one, and the entries are all operators of the list |
| Keyrings.PermutationInvariant | keyring.go:42-80 | then every permutation of the tokens succeeds or fails alike and yields the same entries |
| KeyringRules.KeyringExactly | keyring.go:42-80 | when a jti identifies its claims, a list makes a keyring exactly when it is not empty, all its documents are operator tokens signed by their subject, and any two of different jti are not for one operator and epoch and have one name exactly when one operator; the keyring then has an entry for each, under its operator and epoch, and no other |
| Keyrings.OrderIsImmaterialExactly | keyring.go:42-80 | a list that makes a keyring makes the same one in every order if and only if no two of its operator tokens share a jti without being alike |
| Keyrings.SharedJtiKeepsTheFirst | keyring.go:56-58 | of any two operator tokens sharing a jti, one (operator, epoch) or two, the keyring holds the first alone |
| Messages.FoldOptions | message.go:285-289 | the loop over verify options ends in their left fold |
| Messages.VerifyUnder | message.go:285-386 | the checks in the order of the code accept exactly when the token is a genuine message, one chain is known, the chain is linked in one epoch under the anchor, all windows hold and the bindings match; a missing chain is the one distinct failure |
| Messages.VerifyChain | message.go:317-385 | the same for the part after the chain and the instant are known |
| Messages.VerifyMessage | message.go:232-246 | that verdict under one pinned operator key |
| Messages.VerifyMessageKeyring | message.go:260-279 | that verdict under the keyring's entries |
| MessageRules.OptionsGive | message.go:145-220 | what the verify options put into the configuration: of each setting the last, or its default |
| MessageRules.AcceptedExactly | message.go:285-386 | a message is accepted exactly when the documents say so: types, roles, signers linked level by level in one epoch, the anchor's key or entry, every window in seconds, audience, checksum and payload as the last options ask; and the chain is missing exactly for a genuine message when neither it nor the options bring one |
| MessageRules.AcceptedClaims | message.go:352-385 | what an accepted message hands on is read off its own document, the chain's two, and the policy in force |
| Messages.KeyringEqualsTrial | message.go:260-279 | lookup equals trial: the keyring accepts with given claims exactly when some entry, its key pinned and its token as policy, accepts with those claims; at most one entry does; a missing chain shows alike everywhere |
| Messages.EntryVerdict | message.go:260-279 | one entry's verdict is the keyring's verdict, except that it rejects what the keyring accepts under another entry |
| Messages.ChainPrepended | contrib/httpsig/middleware.go:142-149 | a chain put before the caller's options counts exactly when those options pin none |
| Messages.BindingsCannotBeWeakened | contrib/httpsig/middleware.go:141-149 | whatever options precede the receiver's bindings, an accepted message carries the expected audience (when nonempty) and the checksum of the body |
| Messages.AcceptanceIsAnInterval | message.go:338-370 | accepted instants form one interval, with the same claims at each |
| Messages.AcceptedMonotone | message.go:285-386 | an accepted message stays accepted, with the same claims, as more signatures come to exist |
| Emission.MintedMessageWindow | contrib/httpsig/httpsig.go:40-64 | a message minted from checked creds is accepted, by a receiver that pins the account token's issuer and has the same audience and body, at exactly the instants in all three windows widened by its skew, if the seed's key is the user token's subject, and at none otherwise; in embedding mode a minted message has that key; the message's window ends with the start of the second its lifetime ends in, plus the skew |
| Emission.MinterExactly | contrib/httpsig/httpsig.go:40-64 | creds are taken exactly when they hold an account token, a user token of that account in its epoch and a readable seed; out come the seed's key and that epoch |
| Emission.MintSucceeds | contrib/httpsig/transport.go:82-95 | the mint succeeds exactly for a user key, a proper checksum and an expiry, and in embedding mode a seed of the user token's key; negotiation mode mints with the seed of any user key, which no check of the creds prevents |
| Emission.DeliveredWindow | message.go:303-385 | of a message bound to its request, under a chain the receiver reads as the emitter did, what decides is the emitter's key and the three closed windows |
| Emission.MintOptionsFold | contrib/httpsig/transport.go:82-90 | the transport's mint options fold to that audience, checksum, expiry, epoch and chain |
| Negotiation.ChainCache.Get | chain.go:44-49 | the lookup answers with the entry, or none |
| Negotiation.ChainCache.Put | chain.go:51-61 | the entry is stored; nothing else changes, except that a new key in a full cache costs exactly one other entry; the bound of 1024 is kept |
| Negotiation.ChainCache.Del | chain.go:63-67 | exactly that entry is gone |
| Negotiation.Receiver.Verify | contrib/httpsig/middleware.go:111-168 | the step, with its fallback, eviction and store, gives the specified outcome and effect on the cache for whatever the cache held |
| Negotiation.Receiver.Fetch | contrib/httpsig/middleware.go:127-139 | the cache is consulted only without a complete detached pair, under the issuer the token decodes to |
| Negotiation.Receiver.VerifyOnce | contrib/httpsig/middleware.go:141-149 | one attempt: negotiated chain first, configured options next, own bindings last |
| Negotiation.LookupExactly | contrib/httpsig/middleware.go:127-139 | the cache contributes a chain only without a complete detached pair, under the issuer of a token that decodes |
| Negotiation.DetachedExactly | contrib/httpsig/middleware.go:129-168 | a request with a complete detached pair is verified exactly when the message is accepted under it, and the pair is stored exactly then and if there is a cache |
| Negotiation.UncachedExactly | contrib/httpsig/middleware.go:129-168 | without a pair and with nothing from a cache, or no cache, it is verified exactly when the message is accepted on its own, and no entry changes |
| Negotiation.CachedExactly | contrib/httpsig/middleware.go:151-168 | with a cached chain it is verified exactly when the message is accepted under that, or else on its own; the entry goes exactly when it failed and the message passed without it or lacks a chain |
| Negotiation.RefusedUnseen | contrib/httpsig/middleware.go:112-125 | without a token, or with an unreadable body, it is refused and no entry changes |
| Delivery.EmbeddedIsServedExactly | contrib/httpsig/transport.go:76-100 | what a transport mints in embedding mode is served at its first send, whatever the cache holds and without one, at exactly the instants inside the account's, the user's and the message's windows |
| Delivery.NegotiatedIsServedExactly | contrib/httpsig/transport.go:101-120 | what it mints in negotiation mode is served, sent with its chain, at exactly such instants, if the seed is that of the user token's key, and at none otherwise |
| Negotiation.VerifiedIsBound | contrib/httpsig/middleware.go:141-149 | a verified request is bound to the incoming audience and to the body delivered, on every path of the step |
| Negotiation.VerifiedNamesItsKey | contrib/httpsig/middleware.go:164-166 | the key a chain is stored under is the issuer of the verified message |
| Negotiation.ChainMissingExactly | contrib/httpsig/middleware.go:111-168 | the chain is asked for exactly when the token is a genuine message without a chain, no complete pair came, none is pinned, and the cached chain, if any, failed |
| Negotiation.ChainMissingLeavesNoEntry | contrib/httpsig/middleware.go:151-160 | and then, run alone, the cache holds no entry for that issuer |
| Negotiation.SelfContainedIgnoresCache | contrib/httpsig/middleware.go:133-166 | for a token with its own chain and no complete pair, the outcome is that of an empty cache, and a rejection leaves the cache unchanged |
| Negotiation.StoredAndChecked | contrib/httpsig/middleware.go:141-166 | the detached chain is what is stored, while the message is linked under the pinned chain if there is one, and under the detached one otherwise |
| Negotiation.PinnedChainStoresAnything | contrib/httpsig/middleware.go:126-166 | with a chain pinned, any two nonempty headers ride along with a verifying message into the cache |
| Negotiation.RetriesAlike | contrib/grpcsig/server.go:122-148 | over either transport an emitter sees service and the chain signal on the same outcomes, so the exchange below is one for both; only HTTP tells an unreadable body apart |
| Negotiation.ServedInTwoSends | contrib/httpsig/transport.go:101-120 | whatever the cache answers at either send, an emitter whose token and chain verify at both is served at once, or asked for the chain and then served, with that chain to store |
| Negotiation.WarmCacheServesAtOnce | contrib/httpsig/middleware.go:133-151 | once the chain is stored, a message that verifies under it is served at its first send and the cache stays |
| Negotiation.Emitter.Exchange | contrib/httpsig/transport.go:96-120 | one send, and a second exactly when the emitter negotiates and the answer is unauthorized with the chain signal; the second brings the chain |
| Negotiation.NegotiateAlone | contrib/httpsig/transport.go:101-120 | run alone, such an exchange is served in at most two sends, and after two the cache holds the emitter's chain under its key |
| Negotiation.NextMessage | contrib/httpsig/middleware.go:133-151 | and then the next message that verifies under that chain takes one send |
| Interleaving.CachedChainsAreVerified | contrib/httpsig/middleware.go:126-166 | in every interleaving of any number of calls on a cache that starts empty, no chain pinned, a cached entry is a chain under which an earlier message of that key fully verified, and its user token names that key |
| Interleaving.OnlyVerifiedExactly | chain.go:10-12 | a receiver caches only verified chains, in every run, if and only if it pins no chain, has no cache, or can accept no message at all |
| Interleaving.PinnedRunCachesAnything | contrib/httpsig/middleware.go:126-166 | with a cache and a pinned chain, one acceptable message makes a run from the empty cache that ends with any two nonempty strings stored under its key |
| Interleaving.RunIsSound | contrib/httpsig/middleware.go:126-166 | every state of every run keeps the invariant: each entry, and each store still pending, is backed by an acceptance |
| Interleaving.StepKeepsSound | chain.go:44-67 | each atomic step keeps it, pending stores of other calls included |
| Interleaving.AloneIsVerify | contrib/httpsig/middleware.go:111-168 | undisturbed, the atomic steps compose to the sequential step |
| Replay.MemoryReplayCache.SeenBefore | replay.go:25-39 | the pruning loop and the update answer as specified and leave the specified map |
| Replay.PruningIsUnobservable | replay.go:25-39 | under a clock that does not go back, the pruned map answers every call as a log that forgets nothing |
| Replay.AgreeExactlyUnderForwardClock | replay.go:25-39 | they agree on all calls at given clock readings if and only if the readings, from the second on, never go back |
| ReplayBound.ReplayOnlyAtTheEdge | verifier.go:203-211 | in every run, two accepted signed requests with one nonce are at least two skews apart; with one timestamp and one clock, exactly two skews, the timestamp lying exactly one skew ahead of the first |
| ReplayBound.EdgeIsExact | verifier.go:395-406 | a request presented again, passing otherwise, is accepted again if and only if it comes exactly two skews later with its timestamp one skew ahead |
| ReplayBound.HeldOnwards | replay.go:25-39 | through any run of cache steps a recorded nonce stays held until its expiry |
| Allowlists.StaticAllowlist.Set | allowlist.go:95-103 | the ids become exactly the given list; floors stay |
| Allowlists.StaticAllowlist.SetFloor | allowlist.go:62-70 | one entity's floor changes, and a floor of 0 removes it |
| Allowlists.StaticAllowlist.SetFloors | allowlist.go:74-84 | the floors become the given ones without the zeros |
| Allowlists.ListsTellTheHistory | allowlist.go:51-103 | after any history the set is the last list given, and the zero-dropping map is the total function of floors last set, defaulting to 0 |
| Allowlists.FloorRule | generation.go:50-69 | with floors on a token passes exactly when it is unstamped, or readable and at or above its issuer's floor in that history |
| Revocation.AcceptedIsAllowedNow | verifier.go:357-382 | in every history an accepted request's account is allowed by the last list, and every stamped token of its chain is at or above its issuer's last floor, bearer requests included |
| Revocation.RemovalCutsTheAccount | verifier.go:357-359 | once a list without a jti is set, nothing under that account is accepted until a list is set again |
| Revocation.FloorCutsTheEntity | verifier.go:360-382 | once a floor is set, alone or by a reload of all floors, nothing whose chain holds a lower stamp of that entity is accepted until its floor is set again |
| Requests.StaticAccountTokens | verifier.go:120-142 | the loop builds the table that the next three rows describe, or refuses the list |
| Requests.TableRefusesExactly | verifier.go:120-131 | the list is refused exactly when some token is no self-consistent account token |
| Requests.LastTokenWins | verifier.go:121-142 | every account in the list is answered, with the last token listed for it |
| Requests.TableAnswersAreGenuine | verifier.go:118-142 | each answer is a token of the list, self-consistent, for the account it is filed under |
| Requests.Verifier.Pinned | verifier.go:243-255 | the verifier is configured by the left fold of its options |
| Requests.Verifier.Keyed | verifier.go:268-282 | the same, and it is poisoned exactly when the options hold an operator token, good or bad |
| Requests.PoisonedExactly | verifier.go:237-296 | a verifier refuses every request, nonces untouched, on account of its options exactly when they hold an operator token and it has a keyring, or the last one is not self-signed by the pinned key |
| Requests.Verifier.CheckAccount | verifier.go:314-362 | the account level passes exactly when anchored, in window, in epoch, allowed and above its floor |
| Requests.Verifier.Identify | verifier.go:314-384 | an identity comes out exactly when every level of the credential verifies and stands |
| Requests.Verifier.VerifyRequest | verifier.go:293-424 | the pipeline returns the specified identity and leaves the specified nonces: the nonce is touched only after every credential and signature check, and hooks run last |
| RequestRules.OptionsConfigure | verifier.go:165-282 | what the verifier options put into a verifier: the last skew, resolver and operator token, all validators and extension checks in order, floors exactly when asked |
| RequestRules.AuthenticatedExactly | verifier.go:293-424 | a request is accepted exactly when the verifier is sound, its account token is sent or resolved by the user token's issuer, and with it: types, roles and signers of account and user, the anchor's key or entry and its epoch, every window in seconds, the jti in the list, stamps at their floors, the subject's signature within the skew or the bearer mark, a new nonce, and every hook; the identity is read off the documents, and the nonces left are stated for every outcome |
| RequestRules.ResolvedByTable | verifier.go:118-142 | with a static table, a request that brings only a user token fares as if it had brought the last account token listed for that token's issuer, and is refused if none is listed |
| Requests.AcceptedRequestIsSound | verifier.go:293-395 | an accepted identity is one chain under the verifier's anchor, in one epoch wherever a policy applies, with every level in its widened window, and an unsigned request only ever stands on a bearer user token |
| Requests.RequestAcceptanceIsAnInterval | verifier.go:339-399 | nonces aside, the instants at which a request is accepted form one interval, with one identity |
| RequestTrials.KeyringVerifierEqualsTrials | verifier.go:268-282 | for every request and every order of trial, the keyring verifier and one single-anchor verifier per entry agree on the identity and on the final state of the replay cache |
| RequestTrials.EntryAuthenticates | verifier.go:314-407 | an entry the credential does not name refuses it with the nonces untouched; the named one answers as the keyring does |
| RequestTrials.EntryConfigIsBuilt | verifier.go:237-255 | those single-anchor verifiers are what NewVerifier builds from the entry's key, its token and the same options |
| Provenance.RunIsAccounted | token.go:250-346 | in every run each honest key's signatures are tokens of its own level with the right subject role, messages with an expiry, or its own signed requests |
| Provenance.HonestTokenWasIssued | claims.go:211-246 | a decoding token that names an honest issuer was issued by it with exactly those claims |
| Provenance.AcceptedMessageProvenance | message.go:285-386 | in every run, under a pinned key or a keyring, an accepted message goes back to its honest keys: the operator it is rooted in issued the account token, an honest account the user token, an honest user this message with this audience, checksum, epoch, extensions and a nonzero expiry; each as its level allows, and with exactly the claims, name, epoch, bearer mark and extensions handed on |
| Provenance.AcceptedPolicyProvenance | message.go:232-279 | in every run the operator policy a message was accepted under, given as an option or by a keyring entry, was issued by the honest operator it is rooted in |
| Provenance.OperatorTokenProvenance | token.go:351-371 | in every run an operator token that verifies under an honest key was issued by it, exactly as read |
| Provenance.AcceptedSignatureProvenance | sign.go:63-83 | in every run an accepted request signature of an honest subject was made by SignRequest at the instant of its timestamp, over a context of the same hash |
| Provenance.AuthenticatedRequestProvenance | verifier.go:293-424 | in every run, for a pinned key or a keyring and an account token sent or resolved, an authenticated identity stands on account and user tokens its honest keys issued exactly as handed on; a signed request also on its honest subject's own signature, and a bearer request on the bearer mark in the user token |
| CredsFile.Format | creds/creds.go:57-76 | the printed text is the header and the present sections, line by line |
| CredsFile.CheckVersion | creds/creds.go:124-141 | the first version line decides, and must say 1; without one the file passes |
| CredsFile.Between | creds/creds.go:148-175 | one pass finds the section of the first begin marker, absent, whole or broken |
| CredsFile.Parse | creds/creds.go:79-109 | the passes together give the creds or an error, at least one token required |
| CredsRules.VersionExactly | creds/creds.go:120-141 | a file passes exactly when the text after its first version marker, trimmed, is a 1 with or without a plus sign and leading zeros, or it has no such line; no other line matters |
| CredsRules.OtherVersionsAreRefused | creds/creds.go:124-141 | so parsing refuses a file whose first version line reads as any other number, a negative one, or none |
| CredsRules.AtoiReads | creds/creds.go:130 | decimal text, with leading zeros and a sign or without, reads as its number |
| CredsRules.AtoiAcceptsExactly | creds/creds.go:130-133 | nothing but digits after an optional sign reads as a number |
| CredsRules.SectionExactly | creds/creds.go:143-175 | a section is found, with its text, exactly when it opens at the first begin marker, closes at the next end marker, and has one line that counts in between; it is absent exactly when no line opens it |
| CredsRules.ParsedExactly | creds/creds.go:79-109 | parsing yields given creds exactly when the version reads as 1, each section is carried or absent as given, and there is a token |
| CredsRules.PrintedText | creds/creds.go:57-76 | the printed file as one text, blank lines and the note after a seed included |
| CredsRules.LinesExactly | creds/creds.go:150-151 | every line ends with its only newline, but for a last one that may have none |
| CredsRules.LinesJoin | creds/creds.go:150-151 | the lines make up the text |
| CredsRules.TrimExactly | creds/creds.go:151 | trimming takes the space off both ends and nothing else |
| CredsRules.SpacesExactly | creds/creds.go:151 | the space that trimming takes is the white space of Unicode |
| CredsRoundTrip.RoundTrip | creds/creds.go:57-175 | parsing a formatted file gives the trimmed creds back if and only if there is a token, every present field trims to one nonempty line, and no line is taken for a marker by its own section's scan or by a section scanned past it |
| CredsRoundTrip.PrefixLosesNoPart | creds/creds.go:57-175 | any prefix of such a file fails to parse, or yields fields that are each absent or intact |
| CredsRoundTrip.ScanFirst | creds/creds.go:148-175 | the section scanned is the one at the first begin marker, and it needs a line that is neither blank nor one of its markers |
| CredsRoundTrip.MangledIsLost | creds/creds.go:148-175 | a field that prints as no line or as several is never given back |

## Left out

- Negotiation.Emitter.Exchange: the messages of one exchange reach the receiver with nothing between them; with other requests in between, the statements per send are `ServedInTwoSends` and `Interleaving`.
- Negotiation.ChainCache.Put: which entry a full cache drops is arbitrary, as map order is in Go.
- Emission.MintedMessageWindow: the several clock readings of one mint (the expiry and the issue time) are taken as one.
- ReplayBound.ReplayOnlyAtTheEdge: requests are served one after the other; two calls that read the cache's clock in one order and take its lock in the other are not modelled.
- CredsRules.AtoiReads: a number beyond 64 bits reads as that number, where the code reports an error; as a version either is refused.
- CredsFile.Parse: the seed is text rather than bytes, and the file is characters rather than UTF-8 bytes.
- Ed25519, SHA-256, nkeys, base64 and JSON themselves: library code, taken as functions with the laws above.
- Overflow of durations and of int64 times, and the 64-bit bound of epochs and generations: integers are unbounded.
- `AllowAll`, and allowlists, chain caches and replay caches other than the in-memory ones: only the repository's own implementations are modelled.
- Signatures made while one call is running: each call, and each atomic step of an interleaving, sees one set of signatures.
- A keyring verifier's entries are read when it is built; a keyring never changes after construction.
- Validators, extension checks and resolvers are deterministic functions of their arguments; what a validator does besides answering is not modelled.
- Operator, account and user tokens in `Identity` and `MessageClaims` are values rather than shared objects.
- HTTP and gRPC plumbing: header canonicalisation, body draining and replay, protobuf marshalling, trailers, contexts and TLS flags. The destination is one string.
- The Gin and Echo adapters, the httpauth and grpcauth middleware, extension bounds and `Covered`: thin layers over the modelled calls.
- `NewNonce`, key generation, `Load`, `LoadAllowlistFile`, the deprecated `Issue`, examples and conformance fixtures: randomness, input and output, an alias.
- Error texts: outcomes are values, with the missing chain kept distinct.
