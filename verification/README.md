# A model of the LTI toolkit's launch protocol and platform clients

The toolkit is the tool side of LTI 1.3: it sends a browser through a third-party initiated login,
validates the launch that comes back, remembers it, and talks to learning platforms. This project
models three groups of its code in Dafny and proves what they promise.

**The launch protocol** (`LtiData`, `Storage`, `OddNonces`, `Jwt`, `Launch`, `MessageLaunch`, `OidcLogin`,
`Protocol`, `Runs`, `Limits`, `Refusals`).
`MessageLaunch` and `OidcLogin` are objects whose methods fill fields, queue cookies and write a cache
shared by all sessions; each method is proved equal to a function of the state it starts in. `Launch`
says what the whole validation chain comes to, and that it succeeds exactly when an unordered list of
conditions holds, which are told of the inputs and not of the chain's own steps; `Refusals` says which error
each failing condition gives. `Protocol` takes runs of any length of logins, launches, restored launches and expiring
entries, in any order, and proves what every run keeps. `PerformAll` ties the two together: whatever the
objects do, one after the other on a shared cache, is such a run, with the same answers. `Runs` builds runs that
exist and says when a launch is accepted; `Limits` shows by runs where the promises about all runs stop. The
chain follows section 5.1.3 and the login section 5.1.1 of the 1EdTech Security Framework 1.0, and section 4 of
OpenID Connect Core 1.0.

**Traversals, paging, indexes and parsing** (`Brightspace`, `LineItems`, `LinkHeader`, `CourseGroups`,
`Text`). The depth-first walk over a platform's module graph, which may be cyclic; line items behind page
links and find-or-create; the `Link` header (section 3 of RFC 8288); and the join of groups to group sets.

**Tokens and registrations** (`Tokens`, `Registrations`). The token cache for the grant of section 4.4 of
RFC 6749, over runs of calls with a clock; and dynamic registration, over sequences of successful and failed
handshakes, as later launches see it.

## Where a promise holds only under a condition

- A record of a launch comes from a fully passed chain in every run, whatever cookies are presented and over
  whichever scheme. That its nonce was saved by a login of the same session holds in every run exactly for the
  texts that are not odd (`NoncesAreSavedIffNotOdd`). A nonce is odd when it is, or ends after a hyphen in,
  `id-token-hash`, `state-` or `launch-` and a random UUID, or `nonce-` and a minted nonce: its key is then that
  of another entry. Minted nonces are not odd, and when browsers present only cookies the tool set,
  no nonce needs the condition (`AcceptedNoncesWereSaved`).
- A request over plain HTTP builds its keys without a session, and such a key is a key of a session exactly when
  it spells out that session's id (`SchemesAliasIff`). Two sessions share a key exactly when one id, followed by a
  hyphen, begins the other (`SessionsAliasIff`), which browsers can arrange and minted ids, having one length,
  never do. With issued cookies only and both schemes in use, nonces keep to their sessions, and a launch is let
  in by another session's launch only over plain HTTP, when its state spells out that session and its state
  (`UntracedIffSpelled`), and then only if a digest collides or a nonce was minted twice
  (`FreshNoncesKeepSessions`).
- What a restored text finds shows in how it begins (`RestoredTextsShowWhatTheyName`): a launch of the session,
  the parameters of one of its logins, or, without a session, a key set document with claims or something of a
  session that the text spells out. The last three happen too (`ParametersCanBeRestored`, `KeySetsCanBeRestored`,
  `RecordsCanBeRestoredWithoutTheirSession`).
- A nonce is never used up: checking it only looks for it. A completed launch can therefore be posted again
  (`CompletedLaunchesCanBeRefreshed`), which is what the marker of a state is for.
- The scopes of a token are joined with `|`, which some scopes contain. Two lists share a key exactly when,
  sorted, they break at `|` into the same pieces; with equally many `|` in all scopes that means the same
  scopes, and otherwise it need not (`MixedScopesShareAToken`).
- The Link header is put in lower case before it is read, so an address comes back as it was sent exactly
  when it has no upper-case letter or line feed (`AddressSurvivesIffNormal`).
- Courses are found whole exactly up to twenty-five reachable modules (`CoursesAreFoundWholeIff`). A topic that
  the root reaches directly can be missed too, when the walk meets its module first at depth twenty-six.
- A group set whose id is `0`, null or the empty text gets no groups (`IndexJoinIsNestedLoopJoin`).
- A login whose registration has no client id or no login address fails after its state cookie and nonce
  have been issued (`PrepareRedirectUrl`).

## Model

| member | source | states |
|---|---|---|
| Protocol.RecordsComeFromPassedLaunches | src/ltitoolkit/core/message_launch.py:306-326 | In every run, with any cookies and schemes, a record under a launch's key holds the body of an accepted launch of that id and session; the whole chain held of the cache at that time; and unless its nonce is an odd text, an earlier login of the session saved it |
| Protocol.RecordsComeFromAcceptedLaunches | src/ltitoolkit/core/message_launch.py:786-792 | In every run, nothing but an accepted launch of that id in that session puts a value under a launch's key, and the value is its body |
| Protocol.AcceptedMeansPassed | src/ltitoolkit/core/message_launch.py:306-326 | In every run, all conditions of an accepted launch's chain held of the cache as it was then |
| Protocol.AcceptedClaimsWereKnown | src/ltitoolkit/core/message_launch.py:674-742 | In every run, an accepted launch's client is the token's audience or the first of several; the configuration knew the issuer's registration, by client unless the issuer has only one, with that client id, and the deployment, again by client unless the issuer has only one |
| Runs.UnknownDeploymentsAreRefused | src/ltitoolkit/core/message_launch.py:726-742 | In every run, a launch that is right up to its signature but names a deployment the configuration does not know is answered with the error for that |
| Protocol.AcceptedNoncesWereSavedInAnyRun | src/ltitoolkit/core/message_launch.py:663-672 | In every run, an accepted launch's nonce that is not an odd text was saved by an earlier login of its session |
| Protocol.KnownNonceWasSavedInAnyRun | src/ltitoolkit/core/session.py:41-46 | In every run, a nonce that is not an odd text and that the check finds in a session was saved there by a login |
| Limits.NoncesAreSavedIffNotOdd | src/ltitoolkit/core/message_launch.py:663-672 | Some run accepts a launch with this nonce that no earlier login of its session saved exactly when the nonce is odd: it is, or ends after a hyphen in, `id-token-hash`, or `state-` or `launch-` and a random UUID, or `nonce-` and a minted nonce |
| Limits.OddNoncesAreAcceptedUnsaved | src/ltitoolkit/core/session.py:20-46 | For every odd text there is a run of a login, an accepted launch in that login's session, and an accepted launch with this nonce over plain HTTP, where no login without a session saved it |
| OddNonces.MintedNoncesAreNotOdd | src/ltitoolkit/core/oidc_login.py:81-82 | No minted nonce is an odd text |
| Protocol.AcceptedNoncesWereSaved | src/ltitoolkit/core/message_launch.py:663-672 | In every run with issued cookies only, the nonce of an accepted launch, whatever text it is, was saved by an earlier login of the same session |
| Protocol.KnownNoncesWereSaved | src/ltitoolkit/core/session.py:41-46 | In every run with issued cookies only, a nonce that the check finds is one that a login saved, not an entry of another kind under the same key |
| Protocol.LaunchesTraceToCookies | src/ltitoolkit/core/message_launch.py:625-640 | In every run where browsers present only issued cookies, over either scheme, an accepted launch leads back, through launches that found a marker, to an accepted launch with the same token digest that presented its state's cookie, and a login before that minted the state; session and state are the launch's own, unless it came over plain HTTP with a state that spells both out |
| Protocol.LaunchesHaveRoots | src/ltitoolkit/core/message_launch.py:625-640 | In every run whatever, an accepted launch leads back to an accepted launch that presented its state's cookie and has the same marker: the same digest, and session and state that read the same in a row |
| Protocol.FreshNoncesKeepSessions | src/ltitoolkit/core/message_launch.py:625-640 | If digests are injective and no nonce is minted twice, session and state are always the launch's own |
| Limits.UntracedIffSpelled | src/ltitoolkit/core/message_launch.py:625-640 | Some run with issued cookies only accepts a launch that no launch of its own session and state let in exactly when it has no session and its state is a UUID, a hyphen and a minted state |
| Limits.CollidingDigestsLetSpelledStatesIn | src/ltitoolkit/core/session.py:54-58 | For every such state there is such a run, with fresh nonces, when digests collide |
| Limits.RepeatedNoncesLetSpelledStatesIn | src/ltitoolkit/core/session.py:54-58 | For every such state there is such a run, with injective digests, when a nonce is minted twice |
| Protocol.MarkersShareKeysIff | src/ltitoolkit/core/session.py:54-58 | The markers of any two states in any two sessions share a key exactly when session and state, joined, read the same |
| Protocol.MarkerHasLaunch | src/ltitoolkit/core/session.py:54-58 | In every run, a marker found for any state and hash was left by an earlier accepted launch with that hash whose session and state read the same in a row |
| Protocol.CookiesHaveLogins | src/ltitoolkit/core/oidc_login.py:100-103 | In every run, a state cookie in circulation was issued by an earlier login that minted that state |
| Protocol.EntriesHaveWriters | src/ltitoolkit/core/launch_data_storage/cache.py:30-40 | In every run, an entry of the cache was written with its present value by an earlier action |
| Protocol.EntryOfKind | src/ltitoolkit/core/session.py:20-58 | In every run with issued cookies only, over either scheme, an entry under a key built from minted values, key sets included, was written by an action that writes exactly that kind in that session, a marker by a launch with the same place: none writes it by coincidence |
| Protocol.RecordSharesItsKey | src/ltitoolkit/core/launch_data_storage/base.py:33-40 | For sessions of any text, or none, no other nonce, parameters, marker, record or key set (of a hexadecimal digest) built from minted values has a record's key |
| Protocol.NonceSharesItsKey | src/ltitoolkit/core/launch_data_storage/base.py:33-40 | For sessions of any text, or none, no other nonce, parameters, marker, record or key set (of a hexadecimal digest) built from minted values has the key of a nonce that is not odd |
| Protocol.RestoredLaunchesWereAccepted | src/ltitoolkit/core/message_launch.py:276-304 | In every run, restoring a launch by its id hands out only the body of an accepted launch of that id in the same session, and its registration still resolves |
| Protocol.RestoringArbitraryIds | src/ltitoolkit/core/message_launch.py:295-304 | In every run with issued cookies only, a body restored by any text is in an accepted launch's record, a login's parameters or a served key set, whose key session and text together spell |
| Protocol.RestoredTextsShowWhatTheyName | src/ltitoolkit/core/message_launch.py:295-304 | In every run with issued cookies only, a restored text, without one leading prefix, begins with `launch-` exactly when it is the id of an accepted launch of the session with that body, with `state-` exactly when it is the state of a login of the session with those parameters, with `key-set-url-` exactly when there is no session and it names a served key set with those claims, with a digit exactly when there is no session and it spells a session and one of its launches or states; it always begins in one of these ways |
| Limits.RecordsCanBeRestoredWithoutTheirSession | src/ltitoolkit/core/launch_data_storage/cache.py:11-24 | For every session there is such a run in which its record is restored over plain HTTP by a text that spells the session |
| Limits.KeySetsCanBeRestored | src/ltitoolkit/core/message_launch.py:557-584 | There is such a run in which the claims in a platform's key set document are restored, which no accepted launch had |
| Limits.RunsNeedOnlyThis | src/ltitoolkit/core/oidc_login.py:78-82 | Random values and library functions as these two runs take them exist |
| Protocol.KeySetKeysHoldKeySets | src/ltitoolkit/core/message_launch.py:557-584 | In every run, only key sets are found under the keys of key sets |
| Limits.ParametersCanBeRestored | src/ltitoolkit/core/message_launch.py:295-304 | A run with issued cookies only and without any launch in which restoring by a state hands out the parameters its login passed on |
| Runs.LaunchAfterLoginIsAccepted | src/ltitoolkit/core/message_launch.py:306-326 | In every run, a launch is accepted with its token's body when a login of its session minted its nonce, the nonce has not expired since, its state is known or its cookie presented, and token, claims, key and validator are right |
| Runs.ExtendingIsARun | src/ltitoolkit/core/oidc_login.py:88-138 | Every run goes on with any well-shaped action, and every one with issued cookies only, when the action presents such |
| Protocol.KeySetsWereServed | src/ltitoolkit/core/message_launch.py:557-584 | In every run, a key set obtained for an address, from the cache or not, was served for that very address at this or an earlier launch |
| Protocol.CompletedLaunchesCanBeRefreshed | src/ltitoolkit/core/session.py:41-58 | In every run whatever, after a launch completes, and until its marker or nonce expires or another token completes where session and state read the same in a row, posting it again passes the state check without a cookie and passes the nonce check |
| Protocol.PerformLaunch | src/ltitoolkit/core/message_launch.py:203-237 | A launch object opened on the shared cache and asked for its body changes the cache and answers as the run's launch does |
| Protocol.PerformLogin | src/ltitoolkit/core/oidc_login.py:88-138 | A login object changes the cache and issues cookies as the run's login does |
| Protocol.PerformRestore | src/ltitoolkit/core/message_launch.py:276-304 | A restored launch object changes nothing in the cache and answers as the run's restoring does |
| Protocol.PerformAll | src/ltitoolkit/core/message_launch.py:306-326 | Any actions, carried out one after the other by the objects on one cache, are a run with exactly the answers given: the theorems about runs are about the objects |
| Launch.ValidateIffPassed | src/ltitoolkit/core/message_launch.py:306-326 | The chain accepts a body exactly when all its conditions, told of the inputs alone, hold at once: state known, token decoding to that body, nonce known, registration and client and deployment in the configuration, the first key with the header's id and algorithm verifying, the validator of the message's type accepting |
| Launch.ClaimsResolveIff | src/ltitoolkit/core/message_launch.py:674-742 | Registration and deployment steps succeed exactly when the configuration's own lookups, by issuer or by issuer and client, find both |
| Launch.KeySetForIs | src/ltitoolkit/core/message_launch.py:586-605 | The key set used is the registration's own unless that is empty, else the cached one unless that is empty, else the one its HTTP address serves, and at most that one is then cached |
| Launch.FetchingCaches | src/ltitoolkit/core/message_launch.py:557-584 | With nothing cached a served key set is used, and cached under the digest of its address when there is a cache |
| Refusals.UnknownStates | src/ltitoolkit/core/message_launch.py:625-640 | A launch without state, without token, or with neither marker nor cookie is refused with the error for that, and nothing is written |
| Refusals.MalformedTokens | src/ltitoolkit/core/message_launch.py:642-661 | A token that does not have exactly two full stops, or whose parts do not decode to JSON, is refused with the error for that |
| Refusals.PayloadsThatAreNoObjects | src/ltitoolkit/core/message_launch.py:663-672 | A payload that is no object makes reading the nonce crash |
| Refusals.UnknownNonces | src/ltitoolkit/core/message_launch.py:663-672 | A token without a nonce, or with one not in the session, is refused whatever else it says |
| Refusals.UnknownRegistrations | src/ltitoolkit/core/message_launch.py:674-706 | A token without issuer, of an unknown client, or of another client than the registration's is refused with the error for that |
| Refusals.UnobtainableKeys | src/ltitoolkit/core/message_launch.py:557-605 | Without a usable address, with one not of HTTP, or with one that does not serve JSON, the launch is refused with the error for that |
| Refusals.UnverifiedTokens | src/ltitoolkit/core/message_launch.py:607-724 | Without key id or algorithm, without a key of both in the set, with one that cannot be converted or does not verify, the launch is refused with the error for that |
| Refusals.KeySetsWithoutKeys | src/ltitoolkit/core/message_launch.py:607-623 | A key set document without keys makes the search for one fail with an exception of its own, after id and algorithm have been looked at |
| Refusals.HeadersThatAreNoObjects | src/ltitoolkit/core/message_launch.py:607-611 | A header that is no object is noticed only once a key set has been obtained, and then raises |
| Refusals.UnknownDeployments | src/ltitoolkit/core/message_launch.py:726-742 | Without a deployment id, or with one the configuration's lookup does not know, the launch is refused with the error for that |
| Refusals.UnknownMessages | src/ltitoolkit/core/message_launch.py:744-766 | Without a message type, with one of no validator, or with a message its validator does not accept, the launch is refused with the error for that |
| Launch.ValidateWrites | src/ltitoolkit/core/message_launch.py:786-792 | A chain writes at most the fetched key set under its address, and only when it accepts also the record and the marker; all else in the cache stays |
| Launch.FindKeyIff | src/ltitoolkit/core/message_launch.py:607-623 | A token verifies under the selected key exactly when the first key with the header's key id and algorithm converts and verifies it |
| Launch.RunValidatorsIff | src/ltitoolkit/core/message_launch.py:752-764 | The loop over validators succeeds exactly when one validator recognises the message, no other does, and it accepts |
| Launch.SignatureIff | src/ltitoolkit/core/message_launch.py:586-724 | The signature step succeeds exactly when the key set lists keys and the first one with the header's id and algorithm verifies the token |
| Launch.MessageIff | src/ltitoolkit/core/message_launch.py:744-766 | The message step succeeds exactly when the message type is one of the four there are and its validator accepts the body |
| MessageLaunches.MessageLaunch.Validate | src/ltitoolkit/core/message_launch.py:306-326 | Validation writes and returns what the chain does, the launch counts as validated exactly on success, then with a certificate of the passed chain; a restored launch is refused untouched |
| MessageLaunches.MessageLaunch.GetJwtBody | src/ltitoolkit/core/message_launch.py:328-331 | Reading the body gives it as it is, refuses, or runs a chain first, with the chain's result and cache; a certificate is the one before or names this call's context, answers and cache, and outside a chain a self-validating launch with a token of its own hands out only a certified body |
| MessageLaunches.MessageLaunch.GetLaunchData | src/ltitoolkit/core/message_launch.py:523-529 | The accessor answers as reading the body does, and hands out only a body certified by the last completed chain or by one on the cache this call finds |
| MessageLaunches.MessageLaunch.RunReadingSteps | src/ltitoolkit/core/message_launch.py:625-706 | The steps before the signature fill header, body and registration as specified, or give the first error, and write nothing |
| MessageLaunches.MessageLaunch.ValidateState | src/ltitoolkit/core/message_launch.py:625-640 | The state is accepted exactly when its marker has this token's hash or its cookie is presented, with the errors in order |
| MessageLaunches.MessageLaunch.ValidateJwtFormat | src/ltitoolkit/core/message_launch.py:642-661 | Header and body are decoded as specified, an empty token is reported as missing, and on failure the body is the one from before |
| MessageLaunches.MessageLaunch.ValidateNonce | src/ltitoolkit/core/message_launch.py:663-672 | The nonce of the body read, after a validation if that comes first, is looked up in the session and left where it is |
| MessageLaunches.MessageLaunch.ValidateRegistration | src/ltitoolkit/core/message_launch.py:674-706 | For the body read, after a validation if that comes first, the registration is found by issuer, or issuer and client, and must carry the token's client id |
| MessageLaunches.MessageLaunch.ValidateDeployment | src/ltitoolkit/core/message_launch.py:726-742 | For the body read, after a validation if that comes first, the deployment must be found for issuer, or issuer and client |
| MessageLaunches.MessageLaunch.ValidateMessage | src/ltitoolkit/core/message_launch.py:744-766 | For the body read, after a validation if that comes first, the validator loop gives what the specified choice of validator gives |
| MessageLaunches.MessageLaunch.ValidateJwtSignature | src/ltitoolkit/core/message_launch.py:708-724 | The selected key verifies the token, or the first error is reported, that of a missing token or registration included; the session id is as before |
| MessageLaunches.MessageLaunch.GetPublicKey | src/ltitoolkit/core/message_launch.py:586-623 | The key set is the registration's own, or the one at its address, and the first fitting key is picked; without a registration it fails |
| MessageLaunches.MessageLaunch.SaveLaunchData | src/ltitoolkit/core/message_launch.py:786-792 | The record is written under the launch's id and the marker under the state, in the launch's session; without a token or a decoded body it fails and writes nothing |
| MessageLaunches.CallAll | src/ltitoolkit/core/message_launch.py:306-331 | Over any sequence of calls on a launch, single steps and failed validations included, every body handed out was accepted by a whole chain that ran at this or an earlier call, in the launch's session, with that call's answers from outside, on the cache as that call found it, and left the cache as the next call found it |
| MessageLaunches.MakeAndCall | src/ltitoolkit/core/message_launch.py:203-237 | The same for any calls on a launch as it is made |
| MessageLaunches.CallOne | src/ltitoolkit/core/message_launch.py:306-331 | A call does to the cache what a chain, a fetched key set or a saved launch does, or nothing, and a certificate it leaves names its own context, answers and cache |
| MessageLaunches.FetchPublicKey | src/ltitoolkit/core/message_launch.py:557-584 | On every path, errors included, the storage builds the same keys afterwards as before, and cache and result are those of a fetch without a session |
| MessageLaunches.FromCache | src/ltitoolkit/core/message_launch.py:276-304 | A launch is restored exactly when a value with claims is found, a key set document included, and its registration resolves; it carries those claims and that registration, is marked restored, and nothing is written |
| MessageLaunches.RestoresIff | src/ltitoolkit/core/message_launch.py:276-304 | Restoring gives these claims exactly when a dictionary of them, or a key set document with them, lies under the id and the configuration knows their issuer and client; a missing or empty value is reported as missing data |
| MessageLaunches.LaunchSessionIs | src/ltitoolkit/core/message_launch.py:768-780 | A secure launch belongs to the session its cookie names or is refused, another to none |
| MessageLaunches.OpenStorage | src/ltitoolkit/core/message_launch.py:768-780 | A launch over a secure scheme without a session cookie is refused; otherwise its storage works in that cookie's session |
| Jwt.CompactRoundTrip | src/ltitoolkit/core/message_launch.py:642-661 | For all byte strings, a compact token (section 7.1 of RFC 7515) splits into parts whose first two decode to the header and payload that were encoded |
| Jwt.CompactParts | src/ltitoolkit/core/message_launch.py:642-648 | A compact token has exactly three parts, the encoded header, payload and signature |
| Jwt.DecodeEncode | src/ltitoolkit/core/message_launch.py:542-549 | Restoring padding, translating the alphabet and decoding recovers every byte string from its base64url form (section 5 of RFC 4648), for every length |
| Jwt.DigitsDecodeIffNotOneOver | src/ltitoolkit/core/message_launch.py:542-549 | A text of base64url digits decodes exactly when its length is not one more than a multiple of four |
| Jwt.PartsDetermineToken | src/ltitoolkit/core/message_launch.py:643-648 | Two tokens with the same three parts are the same token |
| Jwt.PartsIffTwoStops | src/ltitoolkit/core/message_launch.py:643-648 | A text has three parts exactly when it contains two full stops |
| Jwt.OtherCharactersAreSkipped | src/ltitoolkit/core/message_launch.py:542-549 | Characters that are neither digits nor padding do not matter to the decoder |
| Jwt.PaddingEndsTheInput | src/ltitoolkit/core/message_launch.py:542-549 | Padding that completes a group ends the input, too little of it is an error, and padding at the start of a group is passed over |
| Jwt.AlphabetIsStandard | src/ltitoolkit/core/message_launch.py:542-549 | The digits have the values of the standard alphabet, and base64url's two are translated to its last two |
| OidcLogins.OidcLogin.PrepareRedirectUrl | src/ltitoolkit/core/oidc_login.py:88-138 | The redirect carries the state whose cookie is issued and the nonce saved in the same session, with the registration's address and client id; cookies, cache and success are as specified on every path |
| OidcLogins.OidcLogin.SetLaunchDataStorage | src/ltitoolkit/core/oidc_login.py:259-271 | The browser's session is kept when its cookie names one; otherwise a new one is minted and its cookie issued |
| OidcLogins.LoginAndLaunchAgree | src/ltitoolkit/core/oidc_login.py:166-193 | A login and a launch of the same issuer and client find the same registration, and the launch goes on with it exactly when its client id is the token's |
| OidcLogins.MintsIff | src/ltitoolkit/core/oidc_login.py:88-193 | A login mints exactly when launch address, issuer and login hint are given and the configuration's lookup finds a registration |
| OidcLogins.LoginSessionIs | src/ltitoolkit/core/oidc_login.py:259-271 | The session is the secure cookie's, else a new one, and none over plain HTTP |
| OidcLogins.CookiesSetAre | src/ltitoolkit/core/oidc_login.py:88-103 | The only cookies issued are the state's own, if the login mints, and one for a new session |
| OidcLogins.LoginWrites | src/ltitoolkit/core/oidc_login.py:105-110 | A login that mints enters its nonce and parameters in its session, and nothing else changes |
| Protocol.CookiesAreMinted | src/ltitoolkit/core/oidc_login.py:259-271 | In every run, every cookie issued names a minted session or is a minted state's own |
| Protocol.SessionsAreMinted | src/ltitoolkit/core/message_launch.py:768-780 | The session of a request that presents only issued cookies, if it has one, is one that a login minted |
| Storage.FlatCacheRefinesSessionMaps | src/ltitoolkit/core/launch_data_storage/cache.py:30-40 | After any writes and expiries, in sessions or in none, a session reads the one flat cache as a map of its own, keyed without one leading prefix, whenever its id does not overlap the others' and no key outside a session spells it |
| Storage.PreparedKeysEqualIff | src/ltitoolkit/core/launch_data_storage/base.py:33-40 | For sessions whose ids do not overlap, and keys that spell no session, two prepared keys are equal exactly when session and key without one leading prefix are |
| Storage.SchemesAliasIff | src/ltitoolkit/core/launch_data_storage/base.py:33-40 | A key without a session is a session's key exactly when it spells that session's id |
| Storage.PreparedKeysAreSpelled | src/ltitoolkit/core/launch_data_storage/base.py:33-40 | A key reads as the common prefix, the session and a hyphen if there is one, and the key without one leading prefix |
| Storage.KeysAreSpelled | src/ltitoolkit/core/session.py:20-58 | The keys of nonces, parameters, markers and records read so before the session is added |
| Storage.SessionsAliasIff | src/ltitoolkit/core/launch_data_storage/base.py:33-40 | Two different sessions share some key exactly when one id, followed by a hyphen, begins the other |
| Storage.MintedSessionsAreApart | src/ltitoolkit/core/oidc_login.py:259-271 | Minted sessions, and keys outside every session that begin with no digit, are kept apart in that sense |
| Storage.MintedKeysNeverCollide | src/ltitoolkit/core/session.py:20-58 | Nonce, parameters, marker, record and key set keys built from minted values, in minted sessions or none, are equal exactly when kind, value and session are; key sets are shared by all sessions |
| Storage.KeySetsAreNoSessionKeys | src/ltitoolkit/core/message_launch.py:557-562 | A key set's key is never a key of a session |
| Storage.BareKeysEqualIff | src/ltitoolkit/core/session.py:20-27 | Keys of minted values, before the session is added, are equal exactly when kind and value are |
| Storage.SessionService.SaveNonce | src/ltitoolkit/core/session.py:41-42 | A nonce is entered under its key in the current session and nothing else changes |
| Storage.SessionService.CheckStateIsValid | src/ltitoolkit/core/session.py:57-58 | A state is valid exactly when its marker in the current session is this hash |
| Brightspace.WalkIsCompleteOnSmallCourses | src/ltitoolkit/adapters/brightspace/client.py:111-135 | On every graph with at most twenty-five reachable modules, cycles and sharing included, the walk succeeds exactly when all of them answer, requests each once, never meets the depth guard, and returns each topic as often as the root and the reachable modules list it |
| Brightspace.TopicsComeInDocumentOrder | src/ltitoolkit/adapters/brightspace/client.py:111-135 | For at most twenty-five reachable modules, all of which answer, the answer is the root's listing written out in document order: topics in place, and a module's listing where the module first comes up |
| Brightspace.WalkOnlyAppends | src/ltitoolkit/adapters/brightspace/client.py:121-132 | On every graph, what a walk finds comes after what was found before |
| Brightspace.WalkOnAnyGraph | src/ltitoolkit/adapters/brightspace/client.py:121-135 | On every graph, no module is requested twice, every topic is listed by the root or by a module on a path of at most twenty-five modules, and on success topics are neither lost nor doubled among the modules entered |
| Brightspace.RequestsAreBounded | src/ltitoolkit/adapters/brightspace/client.py:121-132 | At most one structure request is made for each reachable module |
| Brightspace.CoursesAreFoundWholeIff | src/ltitoolkit/adapters/brightspace/client.py:111-135 | Every answering course with n reachable modules has all its topics found exactly when n is at most twenty-five |
| Brightspace.LongChainsLoseTopics | src/ltitoolkit/adapters/brightspace/client.py:121-132 | On a chain of more than twenty-five modules the first twenty-six are requested, the last of these without being walked, and no topic is found, not even when the root itself also lists the last of twenty-six |
| Brightspace.WalkIsComplete | src/ltitoolkit/adapters/brightspace/client.py:121-132 | Depth never exceeds the number of modules seen, so everything listed below an entry has been seen when the walk leaves it |
| Brightspace.WalkConservesTopics | src/ltitoolkit/adapters/brightspace/client.py:121-132 | The topics gained by a walk are those of its listing and of the modules it enters, as often as listed |
| Brightspace.TopicWalk.Walk | src/ltitoolkit/adapters/brightspace/client.py:121-132 | The recursive loop, filling its list and set in place, does what the walk as a function does |
| Brightspace.ListCourseTopics | src/ltitoolkit/adapters/brightspace/client.py:111-135 | The topics are those of the walk from the root, or the call fails when a request does |
| LineItems.LazySearchRefinesEager | src/ltitoolkit/core/assignments_grades.py:142-173 | For every finite chain of pages, searching page by page gives the first match of the whole list or none, requests a prefix of the pages, and fails only as the listing does |
| LineItems.NoRequestAfterMatch | src/ltitoolkit/core/assignments_grades.py:157-173 | A successful search makes its last request for the page with the match; no earlier page has one |
| LineItems.AssignmentsGradesService.GetLineitems | src/ltitoolkit/core/assignments_grades.py:142-155 | The loop over pages returns all items of the chain in order, or the first error, and requests each page once |
| LineItems.AssignmentsGradesService.FindLineitem | src/ltitoolkit/core/assignments_grades.py:157-173 | The nested loops give what the search along the chain gives, with exactly its requests |
| LineItems.AssignmentsGradesService.FindOrCreateLineitem | src/ltitoolkit/core/assignments_grades.py:213-262 | The method answers and posts what the call that the results below speak of does |
| LineItems.CallByTag | src/ltitoolkit/core/assignments_grades.py:213-262 | A call by tag posts exactly when no listed item has the tag and the scope allows it, and otherwise answers with a listed item of that tag |
| LineItems.CallFindsOrCreates | src/ltitoolkit/core/assignments_grades.py:213-262 | By any of the four selectors, the answer is the first listed item with the value; with none listed the item is posted if the scopes allow it, and the answer is the platform's item, or the error for what it answered instead |
| LineItems.CallNeedsSelectorAndValue | src/ltitoolkit/core/assignments_grades.py:213-250 | An unknown selector, an item without the value, or missing scopes give their errors and post nothing |
| LineItems.AnswersAreListed | src/ltitoolkit/core/assignments_grades.py:213-262 | In any run, by any selector, the item a successful call answers with is among those the platform lists afterwards |
| LineItems.LinkedPagesAreListed | src/ltitoolkit/core/assignments_grades.py:142-173 | Following links from the first of some linked pages visits exactly these and lists exactly their items in order |
| LineItems.BrokenPagesFail | src/ltitoolkit/core/assignments_grades.py:118-140 | A page that cannot be fetched or is no list makes the listing fail with the error for that |
| LineItems.ScopesAllow | src/ltitoolkit/core/assignments_grades.py:38-50 | Which scopes allow reading and creating |
| LineItems.TagsAreCreatedOnce | src/ltitoolkit/core/assignments_grades.py:213-262 | Over any run of calls by tag, with any scopes, against a platform that keeps and lists what is posted, no tag ends with more items than it had, or one |
| LineItems.BoundDoesNotMatter | src/ltitoolkit/core/assignments_grades.py:142-173 | Listing, search and requests are the same for any bound within which the chain of pages ends |
| LineItems.RepeatPostsNothing | src/ltitoolkit/core/assignments_grades.py:213-262 | Once a tag is listed, a call for it after any further run posts nothing and answers with an item of that tag |
| LineItems.SuccessListsTag | src/ltitoolkit/core/assignments_grades.py:213-262 | A successful call leaves its tag listed |
| LinkHeader.ParsePrinted | src/ltitoolkit/core/service_connector.py:130-143 | For every list of links, reading the printed header gives the normalised address of the first link whose relation is "next" in any case, or none |
| LinkHeader.NextPageUrlIff | src/ltitoolkit/core/service_connector.py:130-143 | For every header, the address is the group of the pattern's leftmost match in the normalised text, unless that is empty |
| LinkHeader.NormalLetters | src/ltitoolkit/core/service_connector.py:135 | Normalising makes ASCII capitals small and line feeds spaces, and changes no other character of ASCII |
| LinkHeader.StripTakesSpaces | src/ltitoolkit/core/service_connector.py:135 | Stripping takes away all white space at the ends and nothing else |
| LinkHeader.MatchAtIsTheRegex | src/ltitoolkit/core/service_connector.py:133-136 | At each position the computed match is the regular expression's, whichever way its repetitions could be chosen |
| LinkHeader.SearchIsLeftmost | src/ltitoolkit/core/service_connector.py:133-136 | The search gives the match at the leftmost position that has one |
| LinkHeader.AddressSurvivesIffNormal | src/ltitoolkit/core/service_connector.py:133-138 | The first next address of a printed header comes back as it was sent exactly when lower-casing it and replacing line feeds leaves it alone |
| CourseGroups.GetSets | src/ltitoolkit/core/course_groups.py:94-115 | The index built in one loop and used in another fills each set with the groups at home there, in order; it fails exactly when a set has no id or the groups cannot be fetched |
| CourseGroups.IndexJoinIsNestedLoopJoin | src/ltitoolkit/core/course_groups.py:101-113 | The groups of a set that is the last of its id are those that name the id, in order, exactly when the id is not absent, null, zero or empty or nothing names it; such an id gets none |
| CourseGroups.EarlierNamesakesGetNothing | src/ltitoolkit/core/course_groups.py:101-113 | A set whose id a later set has as well gets no groups |
| CourseGroups.EachGroupGoesHome | src/ltitoolkit/core/course_groups.py:107-113 | Every group occurs in its home set as often as it was fetched and in no other set |
| CourseGroups.HomeIsLastNamed | src/ltitoolkit/core/course_groups.py:101-113 | A group's home is the last set with its set id, and it has one exactly when that id is listed and not absent, null, zero or empty |
| CourseGroups.GroupsAreConserved | src/ltitoolkit/core/course_groups.py:107-113 | The sets together hold as many groups as have a home |
| Tokens.TokenIsForTheScopes | src/ltitoolkit/token/service.py:62-83 | After any run of calls, a token handed out was minted in that run for scopes that break into the same pieces, for exactly the requested scopes when all contain equally many separators; without a request it is not within the leeway of its expiry |
| Tokens.TokensAreReusedForTheirLifetime | src/ltitoolkit/token/service.py:67-165 | Over any run, told of the calls alone: the token of a key's last grant is handed out again without a request exactly while its stated lifetime, an hour if none is stated, less the leeway, has not passed since it was received; otherwise the platform is asked and its answer handed out and remembered |
| Tokens.UngrantedTokensAreAskedFor | src/ltitoolkit/token/service.py:67-76 | With no grant under a key the platform is asked |
| Tokens.LessIsLexicographic | src/ltitoolkit/token/service.py:80-83 | Scopes are sorted by the first character in which they differ |
| Tokens.KeysCollideIff | src/ltitoolkit/token/service.py:80-83 | Two scope lists share a key exactly when, sorted, they break at the separator into the same pieces |
| Tokens.UniformKeysIdentifyScopes | src/ltitoolkit/token/service.py:80-83 | With equally many separators in all scopes, a shared key means the same scopes in some order, and conversely |
| Tokens.MixedScopesShareAToken | src/ltitoolkit/adapters/canvas/client.py:24-27 | With unequal numbers of separators a call can be answered with a token for another scope |
| Tokens.SortedIsCanonical | src/ltitoolkit/token/service.py:80-83 | Sorting gives the same list exactly for the arrangements of the same scopes |
| Tokens.MintRateIsBounded | src/ltitoolkit/token/service.py:62-76 | With lifetimes of at least e > leeway, a window of length w holds at most 1 + w / (e - leeway) mints of one key |
| Tokens.RunsKeepLatest | src/ltitoolkit/token/cache.py:37-47 | After any run the cache holds, for each key minted and no other, the latest token minted for it |
| Tokens.AccessTokenService.GetToken | src/ltitoolkit/token/service.py:62-76 | The method is the call that the results about runs speak of, and a failed call changes nothing |
| Registrations.LookupFindsLastSuccess | src/ltitoolkit/dynamic_registration/tool_conf.py:61-72 | After any exchanges, a lookup by issuer and client finds the last one that registered the pair, with that platform's endpoints, its authorization server as audience and the deployment its reply named, if any; and nothing exactly when none did |
| Registrations.RegisterThenResolve | src/ltitoolkit/dynamic_registration/tool_conf.py:45-102 | From the handshakes to a launch: registration and deployment by issuer and client are those of the last exchange that registered the pair, any deployment being known unless its reply named one; with no such exchange both fail |
| Registrations.RegisterThenResolveIssuer | src/ltitoolkit/dynamic_registration/tool_conf.py:61-102 | Without a client id they are those of the last exchange of the issuer's first client |
| Registrations.RegisteredIff | src/ltitoolkit/dynamic_registration/service.py:134-156 | An exchange registers exactly when the platform's document has all five fields and the reply a client id, and records their fields |
| Registrations.ClientIsIff | src/ltitoolkit/dynamic_registration/service.py:138-150 | A client id is recorded as its text, or as the decimal digits of its number |
| Registrations.LookupWithoutClientFindsFirst | src/ltitoolkit/dynamic_registration/tool_conf.py:61-72 | A lookup without a client id resolves to the client the issuer was first registered with, whatever was re-registered since |
| Registrations.FirstCandidate | src/ltitoolkit/dynamic_registration/store.py:39-40 | The first candidate of an issuer is the latest registration of its first client |
| Registrations.RegisterAll | src/ltitoolkit/dynamic_registration/service.py:42-51 | Calling the handshake for each exchange in turn leaves a store that holds exactly the successful ones; failures change nothing |
| Registrations.DynamicRegistrationService.Register | src/ltitoolkit/dynamic_registration/service.py:42-51 | The method saves and returns what the exchange registers, in the sense of the results about exchanges; any other exchange raises and saves nothing |
| Registrations.InMemoryRegistrationStore.Save | src/ltitoolkit/dynamic_registration/store.py:33-34 | Saving extends the history the store holds: an old key keeps its place in the order, a new one comes last |
| Registrations.StoredToolConf.Lookup | src/ltitoolkit/dynamic_registration/tool_conf.py:61-72 | The lookup gives the client's latest registration, or that of the issuer's first client, or raises |
| Registrations.StoredToolConf.FindRegistrationByParams | src/ltitoolkit/dynamic_registration/tool_conf.py:45-78 | The registration found carries the record's endpoints and the tool's own keys |
| Registrations.StoredToolConf.FindDeploymentByParams | src/ltitoolkit/dynamic_registration/tool_conf.py:82-102 | A deployment resolves exactly when the record exists and its list is empty or contains it |

## Left out

- Signatures, key conversion, digests, JSON, UTF-8 and UUIDs are library code: functions or values given from
  outside. Digests are assumed injective, or to be thirty-two hexadecimal digits, only where a lemma says so.
- HTTP sessions, timeouts and retries, the web framework adapters, HTML pages, and the message validators'
  checks of single claims, which are one predicate here.
- `SessionDataStorage`, in which each browser has a store of its own: the model uses the shared cache.
- A storage object for key sets other than the launch's own: the model caches key sets in the launch's
  storage or not at all. A storage object is made for each request, as the session id in it requires.
- Expiry times: any entry may expire at any step, which covers every choice of lifetime.
- `ToolConfDict`, `ToolConfJsonFile` and the Django configuration: the protocol takes any configuration as
  functions, and a lookup that raises finds nothing. A registration is a value, so a key set fetched during a
  launch is kept by that launch only, not by a configuration that returns the same object again.
- MessageLaunches.MessageLaunch.SaveLaunchData: called on its own with a decoded body that is not an object it
  fails here, where the code saves that value; within a chain an earlier step has failed by then.
- Module ids that differ as JSON but read the same in an address, such as `1` and `"1"`, are different modules,
  as they are to the walk; that their requests have one address is not modelled.
- Claims of unexpected JSON types: an absent claim and an empty one are both the empty text, which the code
  treats alike, and a message type or nonce is a text.
- A value of another kind under a key set's key counts as a crash at once; the code reports a missing key id
  or algorithm first. No such value is ever there (`KeySetKeysHoldKeySets`).
- The state of a launch object after it was given a token from outside, or with validation switched off, is
  not certified: the code hands out whatever it was given.
- Infinite chains of pages: the paging methods take a bound within which the chain ends, and their results do
  not depend on it (`BoundDoesNotMatter`). The pages and the module graph do not change during one call.
- The paging loops of groups, sets, members and Canvas files, which repeat the line items' loop.
- `put_grade`, `get_grades`, `get_lineitem` and address building; a service description without the
  addresses or scopes the calls read; LineItem setters.
- The service connector's own token cache, which never expires a token and is keyed by the sorted scopes.
- Floating point: times are real numbers, and lifetimes that are not finite are left out.
- The request body of a registration; documents that are not objects count as failed replies; the message
  and status inside an error.
- `find_registration_by_issuer` and `find_deployment`, which are the modelled lookups without a client id.
- Lower case and white space beyond the Latin-1 characters; comparison of `True` with `1` in platform ids.
