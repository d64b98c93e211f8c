# Verification models of Permission Slip

Permission Slip lets AI agents act for their users under approvals. This Dafny project models the
parts of the server whose correctness is a matter of state kept over time, and proves what they
promise, over every input, every run and every interleaving.

| file | what it models |
|---|---|
| `TokenBuckets.dfy`, `RateLimiter.dfy`, `RateLimiterRuns.dfy` | the token-bucket limiter: lazy refill, a shared bucket with refund, a bucket per key that is forgotten when stale, retry times |
| `Options.dfy`, `Sequences.dfy` | values that may be missing, lists without repeats |
| `Arithmetic.dfy`, `Octets.dfy`, `Decimals.dfy`, `Base64.dfy` | quotients, and the byte strings, decimal text and base64 (section 4 and 5 of RFC 4648) the next group needs |
| `Query.dfy`, `CanonicalRequest.dfy`, `SignatureHeader.dfy`, `OpenSSHKey.dfy` | what an agent signs, the header that carries the signature, and the text of its public key |
| `Replay.dfy` | requests that verify and then consume a signature, beside the job that deletes old signatures |
| `VaultOwnership.dfy` | the transactions that create, replace and delete rows holding vault secret ids |
| `WebhookTokens.dfy` | the wake-webhook token, whose statements are not in a transaction |
| `Spending.dfy` | spending limits checked before, and recorded after, a connector call |
| `EventChannels.dfy`, `ApprovalEvents.dfy`, `BrokerLocking.dfy` | the broker of approval events: its buffered channels, its operations, and its read/write lock with every send a step |
| `EventDedup.dfy`, `EventDeliveries.dfy` | inbound events: the table of processed ids, the dispatch to handlers, and deliveries under way together |
| `Aliases.dfy`, `Constraints.dfy` | the in-place rewriting of parameter aliases and of standing-approval constraints |

Code that updates state is modelled by classes and loops, each proved against a specification
function; the theorems are about runs of those functions. `dafny verify dfyconfig.toml` checks the
whole project.

## Main results

* **Rate limiter.** Forgetting stale keys is invisible to every caller; deleting any rejected calls
  from a run changes no other verdict; and no window admits a key more than burst + rate × length.
  Each of the three holds exactly when rate × staleAfter ≥ burst, with a run that shows the failure
  otherwise. The retry time told to a key suffices, and is tight in every run exactly when the longest
  one, less a second, is at most staleAfter. The limits the server starts with meet both conditions.
* **Signed requests.** A canonical query means what the query meant, canonicalization is idempotent,
  and canonical forms decide equality of meaning; two requests have the same canonical string exactly
  when they agree on every part, whatever the path contains. The canonical text is fixed octet by octet:
  its keys ascend by the first octet that differs, its values keep their order, and each octet has one
  escaped form. Printed headers and keys read back, and every refusal of a header or a key is decided.
* **Replay.** A signature lets at most one request through, over every interleaving, exactly when the
  server has a database and a request is consumed at most 60 seconds after it was verified: both ends
  truncate to whole seconds and the truncations cancel. Whatever is accepted was signed within 300 seconds
  of its verification, before or after.
* **Vault.** Over every run of these transactions, committed or aborted, the vault is the disjoint union
  of what the rows hold, what the rest of the system holds, and the orphans. Of these transactions one
  alone leaves orphans, a connector disabled with its credentials deleted while no vault is configured
  (api/agent_connectors.go:229-232): no run of a deployment leaves one exactly when it has a vault. Without
  a fault each transaction commits exactly when a stated condition on the request and the tables holds, and
  its whole effect on them is stated.
* **Webhook tokens.** Whatever interleaves, and wherever requests fail or stop, no token on a row
  dangles, exactly as long as a store that reports an error has not taken effect. While no request is cut
  short after creating a secret, none is ever lost exactly when no two requests of one agent overlap.
* **Spending.** With at most k payments of a method between check and record, what is recorded in
  thirty days and under way never exceeds the monthly limit plus k - 1 times the largest single
  payment, and some run reaches that bound. The same holds of any thirty days of the run, wherever they
  begin, summed over the ledger.
* **Broker.** No send on a closed channel, no double close, no forgotten channel, limits kept. With every
  send a step of its own, each notify reaches a subscribed channel exactly once, notifies that do not
  overlap arrive in order, and a channel gets everything exactly when no send met a full buffer.
* **Events.** The lazily cleaned table answers as a full history would, so a delivery is turned away
  exactly when its event was marked within the TTL. No event is processed twice within the TTL exactly
  while no two deliveries of it overlap; deliveries of different events may.
* **Normalizers.** Alias rewriting gives one result in every order exactly when the aliases present for
  a missing key agree. Stored constraints are accepted again unchanged exactly when every parameter
  with a reserved name ("", `$meta`, `$data_window`) was given in the first document. Which documents are
  stored is decided entry by entry, for parameters, metadata and data windows.

## Where code and comments disagree

* api/signature_replay.go:39-44 says it fails closed without a database; the code lets the request
  through, and the replay guarantee fails.
* api/agent_connectors.go:220-221 says that a credential row and its secret are deleted together; without
  a vault only the row is.
* "Monthly" spend is a rolling window of thirty days (db/payment_methods.go:243-251).

## Model

| member | source | states |
|---|---|---|
| TokenBuckets.RefillComposes | api/rate_limiter.go:165-175 | refilling now and again later equals one refill later |
| TokenBuckets.RefundUndoesTake | api/rate_limiter.go:147-162 | a refund after a successful take restores the refilled bucket exactly |
| TokenBuckets.FullAfterIdle | api/rate_limiter.go:165-175 | a bucket idle long enough to earn its burst is a new bucket |
| TokenBuckets.LevelGrowth | api/rate_limiter.go:165-175 | the level grows by no more than rate × time |
| TokenBuckets.OperationsKeepSound | api/rate_limiter.go:147-175 | refill and take keep the tokens within capacity |
| TokenBuckets.RefillIs | api/rate_limiter.go:165-175 | a refill adds seconds gone by × rate up to the burst and moves the fill time; a clock that has not moved on changes nothing |
| TokenBuckets.TakeIs | api/rate_limiter.go:147-162 | a take succeeds if and only if the refilled bucket holds a whole token, and then takes one; a refund gives one back up to the burst |
| TokenBuckets.ShortestWait | api/rate_limiter.go:178-193 | without a rate, or with a token there, the wait is one second |
| TokenBuckets.RetryAfterExact | api/rate_limiter.go:177-193 | after a failed take the bucket holds a token after the advertised seconds and, if that is more than one, not one second earlier |
| TokenBuckets.Bucket.AddEarned | api/rate_limiter.go:165-175 | the in-place refill is `Refill`, whose composition law is proved |
| TokenBuckets.Bucket.Allow | api/rate_limiter.go:147-154 | the in-place take returns and leaves what `Take` says |
| TokenBuckets.Bucket.GiveBack | api/rate_limiter.go:158-162 | the in-place refund is `Refund` |
| TokenBuckets.Bucket.SecondsToNextToken | api/rate_limiter.go:178-193 | refills in place and returns the retry time of the refilled bucket |
| RateLimiter.Limiter.constructor | api/rate_limiter.go:56-72 | starts full, with no keys |
| RateLimiter.Limiter.MaybeClean | api/rate_limiter.go:197-208 | the sweep in any iteration order removes exactly the buckets before the cutoff |
| RateLimiter.Limiter.FindOrCreate | api/rate_limiter.go:93-102 | a key without a bucket gets a full one of its own |
| RateLimiter.Limiter.Consume | api/rate_limiter.go:85-109 | global take, key take and refund on rejection, as one `Decide` |
| RateLimiter.Limiter.ConsumeFrom | api/rate_limiter.go:138-142 | takes from the bucket a key has, and leaves every other bucket as it was |
| RateLimiter.Limiter.ConsumeKey | api/rate_limiter.go:127-142 | take from the bucket of the key alone |
| RateLimiter.Limiter.Allow | api/rate_limiter.go:78-112 | state and verdict of a call are those of `Step` |
| RateLimiter.Limiter.AllowKey | api/rate_limiter.go:118-143 | state and verdict are those of `Step`; the empty key touches nothing |
| RateLimiterRuns.NewIs | api/rate_limiter.go:56-72 | a new limiter has a full shared bucket and no keys |
| RateLimiterRuns.SweepExactly | api/rate_limiter.go:197-208 | the sweep comes after half the idle period and forgets exactly the keys idle for longer than it |
| RateLimiterRuns.PassesExactly | api/rate_limiter.go:78-143 | a call passes if and only if every bucket it asks holds a token after its refill, a key without a bucket having a full one |
| RateLimiterRuns.PassingTakesOne | api/rate_limiter.go:78-143 | a call that passes takes one token from each bucket it asks and touches no other |
| RateLimiterRuns.CleanSame | api/rate_limiter.go:197-208 | under the refill condition a sweep leaves a limiter no caller can tell apart |
| RateLimiterRuns.StepSame | api/rate_limiter.go:78-143 | indistinguishable limiters answer alike and stay indistinguishable, evicting or not |
| RateLimiterRuns.RejectionLeavesNoTrace | api/rate_limiter.go:104-109 | a rejected call leaves a limiter indistinguishable from the one before |
| RateLimiterRuns.RunsAgree | api/rate_limiter.go:78-143 | indistinguishable limiters give equal verdicts over every call sequence |
| RateLimiterRuns.EvictionIsUnobservableExactly | api/rate_limiter.go:91-102 | the evicting and the never-evicting limiter agree on all runs if and only if rate × staleAfter ≥ burst |
| RateLimiterRuns.RejectionsAreUnobservableExactly | api/rate_limiter.go:78-112 | deleting any rejected calls from any run leaves the other verdicts as they were, if and only if rate × staleAfter ≥ burst |
| RateLimiterRuns.KeyBudget | api/rate_limiter.go:147-175 | in the limiter that never forgets a key, the calls allowed to a key are paid by its level and what it earns |
| RateLimiterRuns.KeyWindowsAreBoundedExactly | api/rate_limiter.go:118-143 | in every window of every run a key is allowed at most burst + rate × length, if and only if rate × staleAfter ≥ burst |
| RateLimiterRuns.GlobalWindowsAreBounded | api/rate_limiter.go:84-88 | in every window at most globalBurst + globalRate × length calls pass `Allow`, in any configuration |
| RateLimiterRuns.TokensStayInRange | api/rate_limiter.go:145-175 | along every run every bucket holds between nothing and its burst |
| RateLimiterRuns.RetryTimeForKey | api/rate_limiter.go:104-109 | after a per-key rejection the same call is allowed retryAfter seconds later; one second earlier it is allowed if and only if the limiter forgets keys and retryAfter - 1 > staleAfter |
| RateLimiterRuns.KeyDecides | api/rate_limiter.go:91-109 | with the shared bucket out of the way a call is admitted if and only if the key's bucket has a token or the sweep of this call forgets the key |
| RateLimiterRuns.LongestWait | api/rate_limiter.go:178-193 | no advertised wait exceeds the time an empty bucket takes to earn a token, rounded up |
| RateLimiterRuns.ForgottenBeforeItsTime | api/rate_limiter.go:197-208 | when that longest wait, less a second, exceeds staleAfter, a run in which a rejected key is admitted a second early |
| RateLimiterRuns.SlowKeyIsAdmittedEarly | api/rate_limiter.go:197-208 | such a run in numbers: at 0.001 requests a second the key is told 1000 seconds and admitted after 999 |
| RateLimiterRuns.RetryTimesAreTightExactly | api/rate_limiter.go:177-208 | in every run every advertised wait of a key is tight, if and only if the longest wait, less a second, is at most staleAfter |
| RateLimiterRuns.RetryTimeForGlobal | api/rate_limiter.go:85-88 | after a global rejection the shared bucket holds a token retryAfter seconds later, and none a second earlier |
| RateLimiterRuns.ShippedLimitsMeetTheCondition | api/rate_limit_middleware.go:40-77 | the default limits of the server, with those of api/verify_rate_limit.go:24-31, have all four guarantees |
| Base64.DecodeEncode | api/signature.go:314 | decoding the encoding of any bytes gives them back, padded or raw |
| Base64.DigitCodes | api/signature.go:314 | the 64 digits of both alphabets by their ASCII codes |
| Base64.EncodedText | api/signature.go:314 | three bytes become the four digits of the 24-bit number they spell |
| Base64.EncodedTwo | api/signature.go:314 | two last bytes become three digits, and one equals sign if padded |
| Base64.EncodedOne | api/signature.go:314 | one last byte becomes two digits, and two equals signs if padded |
| Base64.DecodesExactly | api/signature.go:85 | a text without line breaks decodes if and only if it is digits in fours, padded at the very end as the encoding asks |
| Base64.GroupIs | api/signature.go:85 | four digits decode to the three bytes of the 24-bit number they spell |
| Base64.LineBreaksAreSkipped | api/signature.go:109 | line breaks are skipped wherever they stand, and nothing else is |
| Decimals.ParseFormatInt | api/signature.go:62 | every 64-bit integer reads back from its decimal text |
| Decimals.DigitIsPlace | api/signature.go:332 | each printed digit is the decimal place of the number it stands at |
| Decimals.DigitCount | api/signature.go:332 | the digits are as many as the number has places, so that none leads with a zero |
| Decimals.ParseIntExactly | api/signature.go:62 | a text reads as an integer if and only if it is an optional sign, any zeros, and the digits of that 64-bit integer |
| Query.UnescapeEscape | api/signature.go:178 | unescaping an escaped string gives it back (sections 2.1 and 2.3 of RFC 3986, space as '+') |
| Query.EscapedOctetIs | api/signature.go:178 | a letter, a numeral, "-", ".", "_" and "~" stand for themselves, "+" for a space, every other octet is "%" and two hexadecimal digits of its value |
| Query.HexDigitCodes | api/signature.go:157-158 | the hexadecimal digits are numerals and upper-case letters, by their ASCII codes |
| Query.UnescapedOctetIs | api/signature.go:163 | "+" is read as a space, any octet but "%" as itself |
| Query.UnescapedPercentIs | api/signature.go:163 | "%" takes two hexadecimal digits and is their value, or makes the query unparsable |
| Query.SegmentIs | api/signature.go:163 | a segment with a semicolon makes the query unparsable; an empty one is skipped |
| Query.PairIs | api/signature.go:163 | a segment is split at its first equals sign, and both parts are unescaped |
| Query.ValuesInOrder | api/signature.go:175-178 | the values of a key are those of its pairs, in their order |
| Query.SortedUnique | api/signature.go:168-173 | a strictly ascending list of a given set of keys is unique, so sorting in place has one outcome |
| Query.BelowExactly | api/signature.go:173 | a key is below another if and only if it is a proper prefix of it or has the smaller octet at the first difference |
| Query.ParseRender | api/signature.go:157-182 | parsing the rendering of a parsed query gives the same key-to-values map |
| Query.CanonicalFormKeepsMeaning | api/signature.go:157-182 | the canonical query parses to what the query parses to |
| Query.CanonicalizationIsIdempotent | api/signature.go:157-182 | canonicalizing twice is canonicalizing once |
| Query.CanonicalFormsDecide | api/signature.go:157-182 | two queries have the same canonical form if and only if they mean the same |
| Query.CanonicalTextIs | api/signature.go:157-182 | the canonical text is its pairs, each escaped, joined by "&"; their keys ascend by the first octet that differs and each key keeps its values; an unparsable query stays as it is |
| Query.CollectSorted | api/signature.go:168-173 | collects the keys of the map in any order and returns them ascending, by octets as `BelowExactly` says |
| Query.PrintPairs | api/signature.go:175-181 | the nested loops print key by key, value by value, what `Render` says |
| Query.CanonicalizeQuery | api/signature.go:159-182 | empty and unparsable queries pass through, others are rendered as `CanonicalTextIs` says: keys ascending, values in order, all escaped |
| CanonicalRequest.BuildCanonicalRequest | api/signature.go:145-155 | the five lines of the canonical request |
| CanonicalRequest.LinesAre | api/signature.go:145-155 | the lines of the text are, in order: method in capitals, path, canonical query, timestamp, body hash |
| CanonicalRequest.UpperAt | api/signature.go:149 | small letters become capitals, and every other octet stays |
| CanonicalRequest.CanonicalRequestsDecide | api/signature.go:142-155 | two requests have equal canonical strings if and only if method up to case, path, query meaning, timestamp and body hash agree |
| SignatureHeader.ParseSignatureHeader | api/signature.go:44-96 | the loop over the parts finds what `Parse` says, which `RefusedExactly` decides for every header |
| SignatureHeader.RefusedExactly | api/signature.go:44-96 | of any header: each refusal if and only if that field is the first one missing or malformed, a part without "=" before all; otherwise exactly the fields read |
| SignatureHeader.InterpretExactly | api/signature.go:55-94 | of any fields: which refusal, or which values, without the parser |
| SignatureHeader.FieldExactly | api/signature.go:49-53 | a part has a name and a value if and only if it has an equals sign |
| SignatureHeader.FieldIs | api/signature.go:48-55 | the name stands before the first equals sign and the value after it, without white space around them and then without quotes around the value |
| SignatureHeader.LastFieldCounts | api/signature.go:45-56 | of several parts with one name the last counts, and a name in no part has no value |
| SignatureHeader.ParsePrintedHeader | api/signature.go:321-338 | the printed header reads back to id, algorithm, timestamp and signature, for every id and timestamp; only an empty signature is refused |
| SignatureHeader.HeaderTextIs | api/signature.go:321-338 | the printed header, character by character |
| OpenSSHKey.FormatEd25519OpenSSH | api/signature.go:288-315 | filling the buffer by offset yields type and key, each after its length (section 4 of RFC 8709, section 5 of RFC 4251) |
| OpenSSHKey.WireIs | api/signature.go:288-315 | the wire form and the text of a 32-byte key, byte by byte |
| OpenSSHKey.Uint32Is | api/signature.go:297-301 | a length of up to 32 bits is written most significant byte first |
| OpenSSHKey.ReadUint32Is | api/signature.go:120-131 | and read as four bytes of a number to the base 256 |
| OpenSSHKey.ParseWireExact | api/signature.go:115-139 | wire bytes are accepted as a key if and only if they begin with the wire form of that 32-byte key |
| OpenSSHKey.ParseFormatted | api/signature.go:98-140 | a printed key reads back if and only if it has 32 bytes |
| OpenSSHKey.ParseExact | api/signature.go:100-140 | which texts are accepted, and as which key |
| OpenSSHKey.RefusedExactly | api/signature.go:100-140 | each refusal of a text if and only if that is the first thing wrong with it |
| OpenSSHKey.WireRefusedExactly | api/signature.go:115-139 | likewise for the wire bytes: too short, another type, a length that does not fit |
| Replay.SignatureTable.ConsumeSignatureOrReject | api/signature_replay.go:38-66 | inserts an absent signature and accepts, refuses a present one, on a database failure changes nothing and refuses, and without a database accepts and records nothing |
| Replay.SignatureTable.CleanupExpired | db/consumed_signatures.go:38-44 | deletes exactly the rows whose expiry is before the current whole second, and counts them |
| Replay.EnabledExactly | api/signature.go:202-210 | a request verifies if and only if it is new, bears the timestamp that was signed, and that lies within 300 seconds of the clock in whole seconds, on either side |
| Replay.RecordedFor360Seconds | api/signature_replay.go:13-27 | a signature is recorded for 360 seconds after its timestamp, and deleted as soon as the clock is past them, not before |
| Replay.AcceptedWasSignedNear | api/signature.go:202-210 | over every interleaving whatever was accepted was signed within 300 seconds of its verification, before or after |
| Replay.StepKeepsInv | api/agents.go:285-331 | an accepted signature is recorded until the clock is past its expiry, at every step; which steps there are is `EnabledExactly` |
| Replay.RunKeepsUnique | api/agents.go:285-331 | no signature is accepted twice while every consume follows its verify in time |
| Replay.ReplaySucceeds | background_consumed_signatures.go:59-78 | a run with a longer delay in which the cleaner lets a signature through twice |
| Replay.UntrackedSignatureRepeats | api/signature_replay.go:39-44 | without a database the same signature is accepted twice |
| Replay.AcceptsAtMostOnceExactly | api/signature_replay.go:13-27 | at most once over every interleaving, if and only if the server has a database and no consume is more than 60 seconds after its verify (or none is possible at all) |
| Replay.FirstUseIsAccepted | api/signature_replay.go:46-65 | a signature never accepted before is accepted; a refusal means it was |
| VaultOwnership.TransactionSettles | api/oauth.go:781-898 | every committed transaction keeps each held id in the vault and owned once, and adds to the orphans exactly what it abandons |
| VaultOwnership.StoreOAuthSettles | api/oauth.go:790-898 | the same for storing tokens, with replacement and with reuse of the old refresh secret |
| VaultOwnership.DropReplacedSettles | api/oauth.go:797-848 | while the replaced row is gone only its kept refresh secret is without a row |
| VaultOwnership.DeleteOAuthSettles | api/oauth.go:1182-1230 | the same for disconnecting |
| VaultOwnership.StoreCredentialSettles | api/credentials.go:134-218 | the same for storing a credential |
| VaultOwnership.UpdateCredentialSettles | api/credentials.go:292-421 | the same for updating one |
| VaultOwnership.DeleteCredentialSettles | api/credentials.go:449-491 | the same for deleting one |
| VaultOwnership.DisableConnectorSettles | api/agent_connectors.go:145-207 | the same for disabling a connector, where secrets are abandoned without a vault |
| VaultOwnership.RunsConserveSecrets | api/oauth.go:781-898 | over every run of committed and aborted transactions nothing dangles or is shared, and the orphans are exactly those abandoned on the way |
| VaultOwnership.VaultIsPartitioned | api/credentials.go:134-218 | the vault is the disjoint union of held ids, ids of the rest of the system, and orphans |
| VaultOwnership.ConfiguredRunsLoseNothing | api/agent_connectors.go:220-233 | with a vault configured no run leaves an orphan |
| VaultOwnership.DisableWithoutVaultLosesASecret | api/agent_connectors.go:229-232 | a concrete disable without a vault that leaves an orphan |
| VaultOwnership.LosesNothingExactly | api/agent_connectors.go:220-233 | no run of a deployment leaves an orphan if and only if the deployment has a vault configured |
| VaultOwnership.OthersAreUntouched | api/oauth.go:812-827 | no transaction changes another user's rows or secrets, or secrets of the rest of the system, whatever ids it names |
| VaultOwnership.StoredTokensReadBack | api/oauth.go:850-898 | the new row reads back the new tokens or the refresh token it took over; the replaced row is gone |
| VaultOwnership.StoreOAuthAccepted | api/oauth.go:781-898 | storing tokens is accepted if and only if the new id is of no connection but the one it replaces, of the same user and provider |
| VaultOwnership.StoreOAuthExactly | api/oauth.go:850-898 | it adds one row with the user and provider of the request, drops the row it replaces, and touches no other |
| VaultOwnership.StoredPayloadReadsBack | api/credentials.go:170-190 | a stored or updated payload reads back through its credential |
| VaultOwnership.StoreCredentialExactly | api/credentials.go:134-218 | a credential is stored if and only if its id is new and its user has none of that service and label; it is stored as given |
| VaultOwnership.UpdateCredentialExactly | api/credentials.go:292-421 | an update is accepted if and only if it changes something of an own credential, can read the secret it changes, and clashes with no label; the new label, the old service and the payload are what is stored |
| VaultOwnership.DeletedIsGone | api/credentials.go:460-482 | deleted rows are gone with their secrets; a disable removes all instances and the user's bound credentials |
| VaultOwnership.DeleteOAuthExactly | api/oauth.go:1170-1230 | disconnecting is accepted if and only if the connection is an own one; that row and its secrets alone go |
| VaultOwnership.DeleteCredentialExactly | api/credentials.go:449-491 | likewise for a credential |
| VaultOwnership.DisableConnectorExactly | api/agent_connectors.go:145-207 | disabling is accepted if and only if the user has the connector enabled for the agent; those instances go, and on request the bound credentials, and nothing else |
| VaultOwnership.Database.DeleteReplaced | api/oauth.go:790-848 | the replaced row goes with its access secret, and with its refresh secret unless that is kept |
| VaultOwnership.Database.StoreOAuthTokens | api/oauth.go:781-898 | statement by statement with any faults: the specified effect or, rolled back, none; without a fault it commits if and only if the new id is free or the one replaced |
| VaultOwnership.Database.DeleteOAuthConnection | api/oauth.go:1170-1230 | likewise for disconnecting; without a fault it commits if and only if the connection is an own one |
| VaultOwnership.Database.StoreNewCredential | api/credentials.go:134-218 | likewise for storing a credential; without a fault it commits if and only if id and label are free |
| VaultOwnership.Database.UpdateOwnedCredential | api/credentials.go:292-421 | likewise for updating one; without a fault it commits if and only if `UpdateCredentialExactly` has its condition |
| VaultOwnership.Database.DeleteOwnedCredential | api/credentials.go:449-491 | likewise for deleting one; without a fault it commits if and only if the credential is an own one |
| VaultOwnership.Database.DeleteCredentialAndVault | api/agent_connectors.go:220-233 | deletes an own row, and its secret when there is a vault; otherwise does nothing |
| VaultOwnership.Database.DeleteBoundCredentials | api/agent_connectors.go:184-197 | the loop over bindings, in any order, deletes exactly the user's bound credentials |
| VaultOwnership.Database.DisableAgentConnector | api/agent_connectors.go:145-207 | the whole disable has the specified effect or none; without a fault it commits if and only if the connector is enabled |
| WebhookTokens.StepKeepsInv | api/agent_webhook.go:148-183 | at every step an id on a row is in the vault and on that row alone, and what each request may still delete is on no row |
| WebhookTokens.EnabledExactly | api/agent_webhook.go:148-183 | which statement of a request may run next, for each stage of a PUT and a DELETE |
| WebhookTokens.NoTokenDangles | api/agent_webhook.go:148-183 | over every interleaving, with requests failing or stopping anywhere, ids on rows are in the vault and the rest of the system loses nothing |
| WebhookTokens.FalseErrorDanglesExactly | api/agent_webhook.go:168-170 | after a store that took effect and reports an error, the row dangles if and only if the request goes on to delete its token |
| WebhookTokens.NeverDanglesExactly | api/agent_webhook.go:168-170 | no token ever dangles if and only if a store that reports an error never took effect |
| WebhookTokens.StepLosesWhatItDrops | api/agent_webhook.go:168-183 | a step adds to the lost secrets exactly what it releases and nobody claims; what is lost stays lost |
| WebhookTokens.StepKeepsAlone | api/agent_webhook.go:148-183 | a request alone with its agent overwrites only what it read, and drops nothing |
| WebhookTokens.AloneLosesNothing | api/agent_webhook.go:148-183 | so runs without overlap on one agent lose nothing |
| WebhookTokens.OverlappingPutsLoseASecret | api/agent_webhook.go:148-183 | a run of two overlapping PUTs, without any failure, that loses a secret |
| WebhookTokens.LosesNothingExactly | api/agent_webhook.go:148-183 | with at most k requests of one agent under way, nothing is ever lost if and only if k ≤ 1 |
| WebhookTokens.OneSecretPerConfiguredAgent | api/agent_webhook.go:148-183 | when the requests are over the vault holds exactly one secret for each configured agent |
| WebhookTokens.PutRuns | api/agent_webhook.go:148-183 | what the steps of a PUT come to on their own, for each failing statement |
| WebhookTokens.DeleteRuns | api/agent_webhook.go:242-258 | what the steps of a DELETE come to on their own |
| WebhookTokens.ProviderExactly | agentwake/provider.go:19-28 | the two provider names, in any case and with white space around; no name means the first |
| WebhookTokens.ValidExactly | api/agent_webhook.go:111-147 | a PUT is valid if and only if it has a token, a known provider, and an address allowed for that provider |
| WebhookTokens.Webhooks.ReplaceToken | api/agent_webhook.go:148-183 | create, store, delete the previous: the run of a PUT's steps, and the row and secret it leaves |
| WebhookTokens.Webhooks.SetAgentWebhook | api/agent_webhook.go:111-183 | the refusals in order; else a PUT's steps and status, with trimmed url and token |
| WebhookTokens.Webhooks.DeleteAgentWebhook | db/agent_webhook.go:66-89 | read, clear, delete: the run of a DELETE's steps, and its status |
| Spending.AcceptedExactly | api/connector_execution.go:170-243 | a payment passes if and only if it names an own method and a non-negative amount within both limits |
| Spending.SpendIs | db/payment_methods.go:243-251 | no payments spend nothing, and one more adds its amount if and only if it is of the method and at most thirty days of 86400 seconds old |
| Spending.RefusedExactly | api/connector_execution.go:170-243 | each refusal if and only if that is the first thing wrong with the payment |
| Spending.EnabledExactly | api/connector_execution.go:67-144 | a payment starts if and only if the checks pass and fewer than k of its method are under way |
| Spending.StepsAre | api/connector_execution.go:117-144 | a check puts the payment under way; only a success enters the ledger, with its amount and the time of its recording |
| Spending.Payments.MonthlySpend | db/payment_methods.go:243-251 | the sum of the method's transactions of the last thirty days, as `SpendIs` says |
| Spending.Payments.ValidatePaymentMethod | api/connector_execution.go:170-243 | each refusal in its order, as `RefusedExactly` says |
| Spending.Payments.Execute | api/connector_execution.go:67-144 | a transaction is recorded if and only if the checks pass, the connector succeeds and the insert does |
| Spending.StepKeepsBound | api/connector_execution.go:159-169 | check, record, failure and passing time keep the exposure within the bound |
| Spending.RunKeepsBound | api/connector_execution.go:159-169 | so does every run with at most k payments of the method under way |
| Spending.BoundIsReached | api/connector_execution.go:159-169 | a run that reaches the bound, for all limits and every k |
| Spending.OverspendIsExactly | api/connector_execution.go:159-169 | exposure never exceeds a given limit if and only if that limit is at least L + (k - 1) × largest payment |
| Spending.SerialSpendingStaysWithinLimit | api/connector_execution.go:117-144 | one payment at a time, recorded spend never exceeds the monthly limit |
| Spending.AnyThirtyDaysAreBounded | api/connector_execution.go:159-169 | over every run with at most k payments under way, the payments recorded within any thirty days, wherever they begin, sum to at most the bound |
| Spending.AnyThirtyDaysStayWithinLimit | api/connector_execution.go:117-144 | one payment at a time, they sum to at most the monthly limit |
| ApprovalEvents.StepKeepsInv | api/approval_events.go:37-122 | registered channels are open and one user's, no user is listed without channel, no buffer exceeds 16 |
| ApprovalEvents.JoinsExactly | api/approval_events.go:37-64 | joining makes a new open channel and registers it for the user; with a limit if and only if the user has fewer channels |
| ApprovalEvents.LeavesExactly | api/approval_events.go:68-80 | leaving takes the channel off the user's and closes it, and the user off the list with the last one; anything else is ignored |
| ApprovalEvents.LimitIsKept | api/approval_events.go:52-64 | a user who joins only through the limit keeps to it over every run |
| ApprovalEvents.StepDelivers | api/approval_events.go:96-122 | a send appends to a subscribed channel or is dropped; nothing else changes what it got |
| ApprovalEvents.NothingAfterUnsubscribe | api/approval_events.go:68-80 | a closed channel gets nothing more and loses nothing |
| ApprovalEvents.DeliveryIsInOrder | api/approval_events.go:96-122 | what a channel gets is an order-preserving subsequence of what is sent to it while subscribed, short by exactly the sends that met a full buffer |
| ApprovalEvents.DeliveryIsCompleteExactly | api/approval_events.go:94-107 | it gets every event if and only if no send met a full buffer |
| ApprovalEvents.ApprovalEventBroker.Subscribe | api/approval_events.go:37-46 | registers a new open channel |
| ApprovalEvents.ApprovalEventBroker.SubscribeWithLimit | api/approval_events.go:52-64 | registers one only under the limit |
| ApprovalEvents.ApprovalEventBroker.Unsubscribe | api/approval_events.go:68-80 | removes and closes; a second call changes nothing |
| ApprovalEvents.ApprovalEventBroker.Broadcast | api/approval_events.go:99-106 | the loop offers the event once to each channel, in any order |
| ApprovalEvents.ApprovalEventBroker.Notify | api/approval_events.go:96-107 | offers the event to the user's channels and no others |
| ApprovalEvents.ApprovalEventBroker.NotifyAll | api/approval_events.go:111-122 | the nested loops offer it once to every registered channel |
| ApprovalEvents.ApprovalEventBroker.SubscriberCount | api/approval_events.go:83-87 | the number of the user's channels |
| BrokerLocking.StepKeepsInv | api/approval_events.go:37-122 | under the lock every statement keeps channels, entries and the targets of running sends sound |
| BrokerLocking.EnabledExactly | api/approval_events.go:37-122 | a sender enters if and only if only senders are inside, any other thread if and only if nobody is; a thread inside may always go on |
| BrokerLocking.LimitExactly | api/approval_events.go:52-64 | a join goes on if and only if it has no limit or the user has fewer channels than it |
| BrokerLocking.NoPanic | api/approval_events.go:68-122 | over every interleaving no send reaches a closed channel and none is closed twice; with the lock free no user entry is empty |
| BrokerLocking.NoChannelIsForgotten | api/approval_events.go:68-80 | every channel ever made is registered, closed, or being closed |
| BrokerLocking.LimitHolds | api/approval_events.go:52-64 | users who join only through the limit never exceed it, at any step |
| BrokerLocking.ServedUsersHaveAtMostTen | api/approval_events.go:186-192 | admitted as the event stream admits them, no user ever has more than ten channels |
| BrokerLocking.LockedDeliveryIsInOrder | api/approval_events.go:96-122 | with every send a step, a channel gets what is offered to it, in that order, less what met a full buffer |
| BrokerLocking.EveryNotifyOffersOnce | api/approval_events.go:96-122 | over every interleaving each notify started offers its event to a subscribed channel exactly once, or has still to |
| BrokerLocking.QuietToQuiet | api/approval_events.go:96-122 | between moments without senders a channel is offered exactly the events of the notifies started, and gets all if and only if none met a full buffer |
| BrokerLocking.QuietMomentsKeepOrder | api/approval_events.go:96-122 | notifies that do not overlap are offered to a channel in their order |
| EventChannels.FullSubsequence | api/approval_events.go:94-107 | a subsequence of the sent events is all of them if and only if it is as long |
| EventChannels.OfferExactly | api/approval_events.go:99-106 | up to sixteen events wait in their order; one that finds sixteen waiting is dropped |
| EventChannels.TakeExactly | api/approval_events.go:96-107 | the reader takes the event that waits longest |
| EventDedup.CalledIsPrefix | connectors/events.go:80-91 | a dispatch calls a prefix of the handlers, ending at the first that fails |
| EventDedup.EventBroker.Subscribe | connectors/events.go:72-76 | appends the handler to those of its type |
| EventDedup.EventBroker.Dispatch | connectors/events.go:80-91 | calls the handlers in order and succeeds if and only if none fails |
| EventDedup.EventDeduplicator.IsSeen | api/slack_events.go:174-189 | the cleaning loop removes exactly the expired marks; then the answer is membership |
| EventDedup.EventDeduplicator.MarkSeen | api/slack_events.go:193-197 | records the mark and nothing else |
| EventDedup.HandleDelivery | api/slack_events.go:86-127 | challenges and empty envelopes do nothing; else look up, dispatch, and mark only on success |
| EventDedup.DeletionIsInvisible | api/slack_events.go:172-197 | whatever lookups and marks interleave, answers equal those of the full history |
| EventDedup.TableRefinesHistory | api/slack_events.go:159-197 | the same from an empty table |
| EventDedup.LatestExactly | api/slack_events.go:193-197 | the latest mark of an id is the one after which there is no other |
| EventDedup.HandledExactly | api/slack_events.go:104-127 | a delivery leaves its own mark if it was dispatched with success, and of the others those no older than the TTL |
| EventDedup.DispatchedExactly | api/slack_events.go:104-127 | processed one at a time, a delivery is dispatched if and only if no earlier one of that event succeeded within the TTL |
| EventDeliveries.HandleIsItsSteps | api/slack_events.go:104-127 | a delivery on its own is its lookup, dispatch and mark, one after the other |
| EventDeliveries.EnabledExactly | api/slack_events.go:104-127 | a new delivery is looked up, one under way goes on with its next step, and time may pass |
| EventDeliveries.TurnedAwayExactly | api/slack_events.go:104-127 | over every interleaving a delivery is turned away if and only if its event was marked within the TTL |
| EventDeliveries.StepKeepsInv | api/slack_events.go:104-127 | while deliveries of one event do not overlap, a success is being marked, remembered, or out of date |
| EventDeliveries.OverlapProcessesTwice | api/slack_events.go:104-127 | a run of two overlapping deliveries of one event in which both succeed |
| EventDeliveries.ProcessesOnceExactly | api/slack_events.go:104-127 | with at most k deliveries of one event between lookup and mark, no run processes an event twice within the TTL if and only if k ≤ 1 (or the TTL is negative) |
| Aliases.NormalizeParameters | connectors/normalize.go:15-51 | the in-place loop is the rewrite in some order of the aliases; reported as unchanged if and only if no alias was present |
| Aliases.RewriteAt | connectors/normalize.go:26-40 | what the rewrite leaves at each key, in a given order |
| Aliases.FirstAliasExactly | connectors/normalize.go:26-40 | the alias whose value counts is the earliest present one in the order |
| Aliases.RewritingIsConfluentExactly | connectors/normalize.go:12-14 | every order gives the same object if and only if the aliases present for a missing key agree |
| Aliases.RewriteIsNormal | connectors/normalize.go:9-10 | no alias left, other keys kept, canonical values win, rewriting again changes nothing |
| Constraints.DateTokensExactly | db/relative_date.go:20-46 | white space aside, the date tokens are the three names and "-", any zeros, a positive 64-bit number, "d" |
| Constraints.DateTokensAreNotGlobs | api/standing_approvals.go:761-766 | passing date tokens first never keeps a glob from being wrapped |
| Constraints.RewritesGlobsExactly | api/standing_approvals.go:770-790 | of the parameters exactly the bare globs become patterns |
| Constraints.StoredKeys | api/standing_approval_constraint_keys.go:38-79 | the stored keys are the schema's and the given `$meta` / `$data_window`; values are the normalized given ones, else the wildcard |
| Constraints.StoredEntrywise | api/standing_approval_constraint_keys.go:17-32 | a flat document is stored if and only if each of its entries would be stored alone |
| Constraints.ParameterExactly | api/standing_approval_constraint_keys.go:146-202 | which values a parameter admits: a date token for a date, and every string, number, truth value or lone pattern for any known parameter; never null, a list or another object |
| Constraints.MetaExactly | api/standing_approvals.go:720-750 | `$meta` is stored if and only if it is null or an object without empty names and nulls, of metadata the connector verifies |
| Constraints.DataWindowExactly | db/data_window.go:31-140 | `$data_window` is stored if and only if the action takes one and it has at least one of a start, an end after it, and a whole number of days of at least one that goes with no start, and nothing else |
| Constraints.RangeExactly | db/data_window.go:136-140 | added to a stored document, a window of two times is stored if and only if both can be read and the first is before the second |
| Constraints.StoredIs | api/standing_approval_constraint_keys.go:38-79 | at each key the stored value: a pattern for a glob, the wildcard for a parameter left out, else what was given |
| Constraints.OnlyObjectsAreStored | api/standing_approvals.go:691-712 | what is no object is never stored |
| Constraints.StoringTwiceExactly | api/standing_approval_constraint_keys.go:17-32 | a stored document is accepted again and unchanged if and only if every parameter with a reserved name was given at first |
| Constraints.ValidateConstraints | api/standing_approvals.go:691-804 | the in-place loop accepts exactly the valid documents and rewrites their entries; which those are is `StoredEntrywise` with the three lemmas on entries |
| Constraints.WrapMeta | api/standing_approvals.go:723-746 | the nested loop over `$meta` does the same |
| Constraints.CheckKeys | api/standing_approval_constraint_keys.go:81-202 | accepts exactly the keys and values the action allows |
| Constraints.FillMissingWildcards | api/standing_approval_constraint_keys.go:62-78 | adds the wildcard for exactly the parameters left out |
| Constraints.ValidateForAction | api/standing_approval_constraint_keys.go:17-32 | validate, check, fill: stored if and only if the entries meet `ParameterExactly`, `MetaExactly` and `DataWindowExactly`, and as `StoredIs` says |

## Left out

- HTTP handlers, JSON text, logging, notifications and routing: plumbing around the modelled state.
- Floating point: tokens, rates and times are real numbers, so rounding in refill and retry time is not modelled.
- Go's cap on the number of query parameters, and white space and upper case beyond ASCII.
- SHA-256, Ed25519 and AES-GCM: a signature verifies for one timestamp, equal hashes mean equal signatures, and the vault returns what was stored.
- Payload checks of stored credentials and the merge of updated fields (api/credentials.go:303-345): the payload arrives as one text.
- OAuth token refresh, deletion of users and agents, and the other owners of vault secrets, which appear only as a set that must stay untouched.
- The transactions of `VaultOwnership` are atomic, as the database makes them; lost updates between them are not at issue.
- Apart from the store, a webhook statement that reports an error is taken not to have happened; without a vault configured a webhook DELETE leaves its secret behind.
- Validation of webhook addresses, the test delivery and the shared-address warning (api/agent_webhook.go:185-199, 260-281).
- Payment methods without a monthly limit, for which there is no bound.
- A payment whose insert fails after the connector succeeded is not counted (api/connector_execution.go:126-143); the bounds are on what is recorded and under way.
- A number of days beyond 64 bits in a data window, whose conversion the language leaves open (db/data_window.go:103-116).
- Structured (version 2) constraint documents, recognized here by the exact key `$version`; parsing of RFC 3339 time stamps is a parameter; which of several errors is reported depends on map order and is not modelled.
- Duplicate keys in JSON objects, where the last one counts.
- Extraction of parameter names from an action's schema (api/standing_approval_constraint_keys.go:353-405): a union of key sets.
- The standing-approval matching loop, connector subprocesses, providers, and the frontend and mobile code.
- Aliases.RewritingIsConfluentExactly: alias maps with chains are excluded, as connectors/normalize.go:12-14 excludes them.
- RateLimiterRuns.EvictionIsUnobservableExactly: negative rates are excluded, here and in the other two equivalences; the clock does not run backwards.
- Replay.AcceptsAtMostOnceExactly: assumes that a signature verifies with one timestamp only, since the timestamp is part of the signed text.
- CanonicalRequest.CanonicalRequestsDecide: a method, an unparsable raw query and a body hash with a line break are excluded; a request line and a hexadecimal hash have none.
- Spending.OverspendIsExactly: the limits of the payment method stay fixed during a run.
- WebhookTokens.NoTokenDangles: agent rows are neither added nor removed during a run.
