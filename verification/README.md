# OpenBastion verification model

A Dafny model of the parts of OpenBastion whose correctness is hard to see by reading them, with proofs about
every input, every run or every interleaving. `dafny verify dfyconfig.toml` checks the whole project.

Code that computes is modelled by functions; code that changes state is modelled by classes and loops, each proved
against a function; concurrent handlers are transition systems whose atomic steps are the stretches of code between
two awaits, so that a run is an arbitrary interleaving of any number of calls.

| file | what it models |
|---|---|
| `Common.dfy` | options and small facts that several models use |
| `JsText.dfy`, `GuacProtocol.dfy` | the Guacamole wire encoder and the streaming parser that keeps an unparsed tail |
| `CanonicalJson.dfy`, `CanonicalJsonProofs.dfy` | the key-sorting JSON printer of the audit log, against a reader for its texts |
| `AuditLog.dfy`, `AuditService.dfy` | row tags, storage in JSON columns, `log`, `createRow`, `verifyIntegrity` |
| `TokenStore.dfy`, `RefreshRotation.dfy` | the refresh-token table; any number of rotations, logouts, revocations and cleanups interleaved |
| `TokenBlacklist.dfy` | the blacklist, its cleanup, and the two clock readings of the guard |
| `AccessTokens.dfy` | which handler issues which token, and what the guards make of it |
| `Base32.dfy` | both base32 loops, with their 32-bit wrapping accumulators, against the bits they spell |
| `TotpReplay.dfy` | one-time codes and the replay cache that forgets, against a memory that does not |
| `OtpLockout.dfy` | the attempt counter under interleaving, and its backoff windows |
| `Rbac.dfy`, `Permissions.dfy` | the access check and the machine list as two views of one relation; the permission table under interleaved handlers |
| `TerminalSessions.dfy` | what reaches a target from SSH and RDP sessions whose handlers and polls are suspended at every await |
| `SessionTabs.dfy` | the tab groups of the session page |

## Where the code and its documentation part

Each of these is stated exactly: a concrete case where the promise fails, and the condition under which it holds.

- An untouched audit row is reported as tampered when `log` was given details but neither an actor nor entities,
  because the tag covers an `entities` member with an undefined value that the JSON column does not keep
  (`AuditService.LoggedRowVerdict`, `AuditService.FalseReportHappens`).
- A blacklisted access token passes the guard if its expiry falls between the guard's two clock readings
  (`TokenBlacklist.GuardVerdict`, `TokenBlacklist.ExpiryDuringLookupPasses`).
- The one-time-code lockout is described as a window that expires. Once five attempts are recorded and no earlier
  call is still under way, no later call ever compares a code again: only a matching code resets the counter
  (`OtpLockout.LockoutOutlivesWindows`, `OtpLockout.FiveWrongCodesLockOut`).
- The access check and the machine list disagree about some machines that belong to no group
  (`Rbac.CheckAndListAgree`, `Rbac.UngroupedMachinesDiffer`).
- A comment in the RDP gateway speaks of a re-check every 30 seconds; the code re-checks after 5 seconds, and the
  window sizes of the RDP gateway are not checked at all (`TerminalSessions.EveryStepRelies`,
  `TerminalSessions.SizeWithoutCheck`). The SSH gateway may still set a window size on a session it has torn down
  (`TerminalSessions.WritesAfterTeardown`, `TerminalSessions.SizeAfterTeardown`).
- A merge whose target group has gone makes that group active all the same, and a session added next is lost
  (`SessionTabs.ActiveStays`, `SessionTabs.SessionLost`).
- A one-time code that another, later counter of the window shares is accepted a second time
  (`TotpReplay.AcceptedExactly`, `TotpReplay.SameCodeAcceptedTwice`).

## Model

| member | source | states |
|---|---|---|
| JsText.ParseIntOfDecimal | backend/src/terminal/guac-protocol.ts:22-28 | reading back a printed length with `parseInt` gives the length, for every length |
| JsText.ParseIntReads | backend/src/terminal/guac-protocol.ts:66 | the length is read as `parseInt` reads it: space and one sign skipped, digits taken, the rest ignored, NaN without digits |
| JsText.SpacesOfEcma | backend/src/terminal/guac-protocol.ts:66 | the characters skipped are the white space and line terminators of ECMA-262, sections 12.2 and 12.3 |
| GuacProtocol.GuacInstructionParser.Feed | backend/src/terminal/guac-protocol.ts:38-53 | one `feed` returns exactly the complete instructions of tail and chunk and keeps exactly what is left; it throws exactly where the text is malformed |
| GuacProtocol.GuacInstructionParser.TryParseOne | backend/src/terminal/guac-protocol.ts:59-88 | the position loop agrees with the recursive reading of one instruction, consumes exactly that instruction and leaves the buffer alone otherwise |
| GuacProtocol.ReadPartStable | backend/src/terminal/guac-protocol.ts:63-81 | more input never changes a part already read, nor repairs a malformed one |
| GuacProtocol.LengthVerdict | backend/src/terminal/guac-protocol.ts:66-72 | a length that prints as digits makes the parser wait for its text, and throw from the value on that rounds to Infinity |
| GuacProtocol.ParseStable | backend/src/terminal/guac-protocol.ts:59-88 | more input never changes what the parser has already decided about an instruction |
| GuacProtocol.DrainAppend | backend/src/terminal/guac-protocol.ts:38-53 | draining a concatenation is draining the first part and then its tail with the second |
| GuacProtocol.FeedChunks | backend/src/terminal/guac-protocol.ts:38-57 | a parser object fed a list of chunks, going on after throws, returns and keeps what the fold of the chunk list says |
| GuacProtocol.FeedAllReflects | backend/src/terminal/guac-protocol.ts:38-57 | the fold over any chunk list keeps the tail, the throw and the instructions that one feed of everything fed so far would give |
| GuacProtocol.FeedBothWays | backend/src/terminal/guac-protocol.ts:38-57 | two new parser objects fed one stream cut in two ways agree on leftover, throw and instructions |
| GuacProtocol.ChunkingDoesNotMatter | backend/src/terminal/guac-protocol.ts:38-88 | for every stream and every way of cutting it: chunked feeding throws if and only if one feed does, otherwise gives the same instructions and the same tail; when it throws, what it delivered is a prefix |
| GuacProtocol.EncodedInstructionParses | backend/src/terminal/guac-protocol.ts:22-28 | an encoded call, whatever follows it, parses to the instruction with exactly the opcode and argument texts of the call, a missing one arriving empty, whatever characters they contain |
| GuacProtocol.WireRoundTrip | backend/src/terminal/guac-protocol.ts:22-28 | feeding the concatenated encodings of any list of calls, cut anywhere, returns the instructions with exactly their texts and leaves nothing |
| CanonicalJsonProofs.EscapesOfEcma | backend/src/audit/audit.service.ts:107-109 | each code unit is escaped as section 25.5.2.3 of ECMA-262 says |
| CanonicalJsonProofs.EscapedByUnits | backend/src/audit/audit.service.ts:107-109 | strings are escaped unit by unit, surrogate pairs staying as they are |
| CanonicalJsonProofs.LessIsCodeUnitOrder | backend/src/audit/audit.service.ts:115 | keys are ordered by code units: a proper prefix first, else the first difference decides |
| CanonicalJsonProofs.QuoteReads | backend/src/audit/audit.service.ts:107-109 | a quoted string followed by anything reads back as the string and leaves what follows: quoting is self-delimiting and injective |
| CanonicalJsonProofs.CanonicalReads | backend/src/audit/audit.service.ts:103-128 | the text printed for any tree, followed by anything that cannot extend a number, reads back as the meaning of the tree |
| CanonicalJsonProofs.SortedUnique | backend/src/audit/audit.service.ts:113-126 | sorted key lists are determined by their elements, so sorting forgets the enumeration order and nothing else |
| CanonicalJsonProofs.SameMeaningSameText | backend/src/audit/audit.service.ts:103-128 | trees equal up to key order at every depth print the same text |
| CanonicalJsonProofs.CanonicalTextIsMeaning | backend/src/audit/audit.service.ts:103-128 | two trees print the same text if and only if they are equal up to key order |
| AuditLog.StorageKeepsMeaning | backend/src/audit/audit.service.ts:388-395 | what a JSON column gives back has the meaning of what was written if and only if no object member had a value JSON leaves out |
| AuditLog.CanonicalPayload | backend/src/audit/audit.service.ts:130-153 | the payloads of two rows coincide if and only if all eight covered fields do, JSON columns up to key order |
| AuditLog.AlgorithmsDiffer | backend/src/audit/audit.service.ts:142-186 | the canonical and the legacy payload are never the same text, so neither algorithm vouches for the other's rows |
| AuditLog.TaggedRowVerdict | backend/src/audit/audit.service.ts:625-654 | a tagged row is clean while its covered content is unchanged; changed content gives two texts both different from the tagged one, and the row is reported exactly when neither has the tag of the tagged text |
| AuditLog.LegacyRowVerdict | backend/src/audit/audit.service.ts:167-188 | a row tagged by the legacy algorithm is accepted while its plain text, key order included, is reproduced; with another plain text both texts differ from the tagged one, and the row is reported exactly when their tags do |
| AuditLog.PlainReads | backend/src/audit/audit.service.ts:177-186 | the legacy text of any tree reads back as what a JSON column keeps of it |
| AuditLog.PlainEntriesInOrder | backend/src/audit/audit.service.ts:177-186 | the legacy text lists members in enumeration order |
| AuditLog.LegacyTextIsContent | backend/src/audit/audit.service.ts:167-188 | rows with the same legacy text have the same scalars and the same stored JSON |
| AuditLog.MissingIsNull | backend/src/audit/audit.service.ts:149-150 | a missing JSON column is covered as null by both algorithms |
| AuditLog.WrittenRowVerdict | backend/src/audit/audit.service.ts:377-401 | a row written and read back untouched, keys in any order, prints the tagged text and is clean if and only if storage dropped nothing; otherwise neither of its texts is the tagged one, and it is reported exactly when their tags differ from its tag |
| AuditService.AuditWriter.CreateRow | backend/src/audit/audit.service.ts:355-402 | appends exactly the row whose tag covers what is stored |
| AuditService.LogMetadataKept | backend/src/audit/audit.service.ts:195-236 | storage keeps the metadata built by `log` if and only if the event names an actor or entity or has no details, and the details are plain JSON |
| AuditService.FinalEntitiesList | backend/src/audit/audit.service.ts:195-231 | the entities block lists exactly the non-empty ids given, each under its own name, and the actor among the users |
| AuditService.UniqueOnce | backend/src/audit/audit.service.ts:202-204 | each id is listed once |
| AuditService.UniqueInOrder | backend/src/audit/audit.service.ts:202-204 | ids keep the order of their first occurrences |
| AuditService.MetadataMembers | backend/src/audit/audit.service.ts:233-236 | the metadata is null, or exactly the details with the entities block, or undefined, under `entities` |
| AuditService.LoggedRowVerdict | backend/src/audit/audit.service.ts:218-246 | an untouched row written by `log` prints the tagged text and is clean if and only if the event was named or without details, and plain; otherwise it is reported exactly when the tags of its two other texts differ from its tag |
| AuditService.SystemEventFalselyReported | backend/src/audit/audit.service.ts:233-236 | for every untouched reading of a system event with details but no actor or entities, both texts differ from the tagged one and the row is reported exactly when their tags do |
| AuditService.FalseReportHappens | backend/src/audit/audit.service.ts:233-236 | such an event has an untouched reading, given outright, for every MAC |
| AuditService.VerifyIntegrity | backend/src/audit/audit.service.ts:610-657 | the loop returns the tampered ids in reading order and the counts; clean, null, legacy and tampered rows add up to the rows checked |
| AuditService.CountsAreRows | backend/src/audit/audit.service.ts:625-654 | each count is the number of rows with that verdict |
| AuditService.OneIdPerRow | backend/src/audit/audit.service.ts:653 | one id is returned for each row judged tampered |
| AuditService.TamperedIdsExactly | backend/src/audit/audit.service.ts:625-654 | an id is returned if and only if it is on a row with a tag that both algorithms refuse |
| AuditService.UntouchedTableIsClean | backend/src/audit/audit.service.ts:610-657 | a table of plainly written rows, read in any order with keys in any order, is never reported |
| TokenStore.RefreshTokenService.Create | backend/src/auth/refresh-token.service.ts:17-27 | adds one unrevoked row for the user, expiring seven days later, and leaves all other rows |
| TokenStore.RefreshTokenService.CompareAndRevoke | backend/src/auth/refresh-token.service.ts:45-52 | one row is counted and revoked if and only if it is there, unrevoked and expires later than now; all other rows stay |
| TokenStore.RefreshTokenService.Rotate | backend/src/auth/refresh-token.service.ts:29-85 | an undisturbed rotation: on success the owner and the new identifier are returned, the old token is revoked, the new one live, nothing else changed; on reuse one family is revoked and one version raised; otherwise nothing changes |
| TokenStore.RefreshTokenService.RevokeFamily | backend/src/users/users.service.ts:425-434 | every token of the user is revoked and no other, that version and no other is one higher; nothing changes for a missing user |
| TokenStore.RefreshTokenService.RevokeAllForUser | backend/src/auth/refresh-token.service.ts:87-92 | revokes every token of the user and nothing else |
| TokenStore.RefreshTokenService.CleanupExpired | backend/src/auth/refresh-token.service.ts:94-98 | removes exactly the expired rows |
| RefreshRotation.RotationIsSingleUse | backend/src/auth/refresh-token.service.ts:45-52 | in every interleaving each refresh token passes the compare-and-revoke at most once, is held by at most one call and has at most one successor |
| RefreshRotation.LiveTokenBound | backend/src/auth/refresh-token.service.ts:17-27 | in every interleaving a user's unrevoked tokens plus half-done rotations never exceed the tokens created outside `rotate` |
| RefreshRotation.DeadForever | backend/src/auth/refresh-token.service.ts:45-52 | a recorded token that is revoked or gone never rotates again in any continuation |
| RefreshRotation.VersionsOnlyGrow | backend/src/users/users.service.ts:426-429 | in every run an account's token version never goes down and a deleted account does not come back |
| RefreshRotation.RevocationIsFinal | backend/src/auth/refresh-token.service.ts:54-75 | after a reuse-triggered transaction or an administrator's revocation, in every continuation no refresh token of the user recorded before it ever rotates |
| RefreshRotation.OldVersionsStayRejected | backend/src/auth/guards/jwt-auth.guard.ts:51-54 | nor is an access token of an earlier version ever accepted again |
| RefreshRotation.KillsRevokeFamily | backend/src/auth/refresh-token.service.ts:63-72 | in the interleaved steps too, a reuse or an administrator's revocation revokes one family and raises one version |
| RefreshRotation.LogoutRevokes | backend/src/auth/refresh-token.service.ts:87-92 | a logout revokes the user's tokens and no other and leaves the version alone |
| RefreshRotation.CleanupRemovesExpired | backend/src/auth/refresh-token.service.ts:94-98 | a cleanup in a run removes exactly the rows that expired before it |
| RefreshRotation.IssueCounts | backend/src/auth/refresh-token.service.ts:17-27 | a token created outside `rotate` is live for its user and counted once, for that user |
| RefreshRotation.AccountsComeAndGo | backend/src/auth/guards/jwt-auth.guard.ts:48-54 | a new account accepts version 0; a deleted one accepts none and does not come back |
| RefreshRotation.AloneIsASchedule | backend/src/auth/refresh-token.service.ts:29-85 | a rotation that nothing interrupts is one schedule of the interleaved steps and has the effect proved of the method |
| TokenBlacklist.TokenBlacklistService.Add | backend/src/auth/token-blacklist.service.ts:40-63 | a token with an expiry gets a row, an existing row is kept, a token without expiry is refused |
| TokenBlacklist.TokenBlacklistService.CleanupExpiredTokens | backend/src/auth/token-blacklist.service.ts:25-38 | removes exactly the expired rows and counts them |
| TokenBlacklist.TokenBlacklistService.IsBlacklisted | backend/src/auth/token-blacklist.service.ts:65-78 | true if and only if the token has a row that has not expired |
| TokenBlacklist.LostRowsExpired | backend/src/auth/token-blacklist.service.ts:25-30 | in every run a row the cleanup has removed had expired before now |
| TokenBlacklist.CleanupStep | backend/src/auth/token-blacklist.service.ts:25-30 | a cleanup in a run removes the rows that expired before it, and no other |
| TokenBlacklist.CleanupIsInvisible | backend/src/auth/token-blacklist.service.ts:25-79 | in every run the guard's verdict is the one a blacklist that is never cleaned would give |
| TokenBlacklist.GuardVerdict | backend/src/auth/guards/jwt-auth.guard.ts:37-46 | the guard passes a token if and only if it is unexpired and was never blacklisted, or its expiry falls between the two clock readings |
| TokenBlacklist.BlacklistedNeverPasses | backend/src/auth/guards/jwt-auth.guard.ts:44-46 | with one clock reading, seconds against milliseconds included, a blacklisted token never passes |
| TokenBlacklist.ExpiryDuringLookupPasses | backend/src/auth/token-blacklist.service.ts:73-75 | the blacklisted token that passes when its expiry falls into the lookup |
| AccessTokens.EveryTokenIsRight | backend/src/auth/auth.controller.ts:262-549 | in every interleaving every token has the claims that belong to its handler and the record it read: a partial token if and only if a password login read a record with OTP, admin mode from sudo steps and re-issues only, and an earlier token of the right sort and user was shown |
| AccessTokens.RecordsWereRead | backend/src/auth/auth.service.ts:136-148 | the record behind a token is one the database held for its user at some moment of the run |
| AccessTokens.SecondFactorIsAsked | backend/src/auth/auth.controller.ts:278-286 | in every run a password login gives an access token for a record without OTP only, and an access token of the code step goes back to an earlier partial token of the same user from a login with OTP |
| AccessTokens.IssuesAlone | backend/src/auth/auth.controller.ts:278-338 | a handler that nothing interrupts and that was shown the right token issues exactly one token, with the claims that belong to it |
| AccessTokens.NewTokenIsAccepted | backend/src/auth/guards/jwt-auth.guard.ts:48-54 | a token just issued is accepted unless it is partial; one of a sudo step passes ADMIN-only routes, one of a login or refresh does not |
| AccessTokens.SudoRefusesOthers | backend/src/auth/auth.controller.ts:398-399 | a sudo step of anyone but an administrator issues nothing and leaves nothing behind |
| AccessTokens.AcceptedWhileCurrent | backend/src/auth/guards/jwt-auth.guard.ts:48-54 | an access token passes the guard at exactly the later moments at which its user's version is its own; an ADMIN-only route takes it if and only if the user is an administrator then and it has admin mode |
| AccessTokens.RecordWritesCutOff | backend/src/auth/guards/jwt-auth.guard.ts:48-54 | a write to a record cuts off exactly that user's tokens of other versions, a deletion all of them |
| AccessTokens.SignedRefreshCanRotate | backend/src/auth/refresh-token.service.ts:23-26 | a refresh token that is signed can be shown to a rotation of its user |
| AccessTokens.ProvenanceAlways | backend/src/auth/auth.controller.ts:262-549 | in every interleaving of the issuing handlers, every token with admin mode was issued by a sudo step or re-issued by an OTP change from such a token of the same user |
| AccessTokens.AcceptedTokenIsAccess | backend/src/auth/guards/jwt-auth.guard.ts:51-54 | refresh tokens and the tokens between password and code have no version and never pass the guard |
| AccessTokens.SudoOrigin | backend/src/auth/auth.controller.ts:859-956 | the sudo step behind an admin-mode token exists, is no later, and is the same user's, then an administrator |
| AccessTokens.AdminRequestsTraceToSudo | backend/src/common/guards/roles.guard.ts:23-33 | in every reachable state a request that passes an ADMIN-only route goes back to a sudo step of a user who is an administrator now |
| AccessTokens.RefreshDropsAdminMode | backend/src/auth/auth.controller.ts:381 | an access token issued on refresh never has admin mode and never passes an ADMIN-only route |
| Base32.Encode | backend/src/auth/totp.ts:23-38 | the loop, its accumulator wrapping at 32 bits, spells exactly the bits of the bytes, filled with zeros and padded to a multiple of eight |
| Base32.Decode | backend/src/auth/totp.ts:5-21 | the loop succeeds exactly on alphabet characters and gives exactly the whole bytes they spell |
| Base32.LowerCaseReads | backend/src/auth/totp.ts:6 | a lower-case letter is read as its capital |
| Base32.OthersUpper | backend/src/auth/totp.ts:6 | capitals, digits and pads are read as they are, and the few other characters whose upper case lies in the alphabet as those letters |
| Base32.Absorb | backend/src/auth/totp.ts:13-14 | shifting a digit into the wrapped accumulator appends its bits to the low bits that count, whatever the high bits are |
| Base32.RoundTrip | backend/src/auth/totp.ts:5-38 | decoding an encoding gives the bytes back, for every byte sequence |
| Base32.EncodeThenDecode | backend/src/auth/totp.ts:5-38 | the two loops themselves, one after the other, return every byte sequence unchanged |
| Base32.EncodedLength | backend/src/auth/totp.ts:23-38 | eight characters for every five bytes begun |
| Base32.EncodingUnique | backend/src/auth/totp.ts:23-38 | the encoding of a byte sequence is determined by the bits alone |
| TotpReplay.CodeIsReadable | backend/src/auth/totp.ts:44-47 | every generated code passes the six-digit test and its digits denote the truncated HMAC |
| TotpReplay.TruncationOfRfc | backend/src/auth/totp.ts:45-46 | the truncation is that of section 5.3 of RFC 4226, the sign bit masked off the first byte |
| TotpReplay.TruncationExample | backend/src/auth/totp.ts:45-46 | the worked example of section 5.4 of RFC 4226 gives 872921 |
| TotpReplay.FormatTest | backend/src/auth/totp.ts:94 | the format test accepts the texts of six characters from 0 to 9 and no others |
| TotpReplay.VerifyWithCounter | backend/src/auth/totp.ts:85-113 | the loop finds the latest matching counter of the window, and returns it only if it is later than the last one used |
| TotpReplay.ReplayCache.GcOtpReplayCache | backend/src/auth/auth.service.ts:51-56 | removes exactly the entries older than five minutes |
| TotpReplay.ReplayCache.CheckCode | backend/src/auth/auth.service.ts:181-192 | the decision and the new cache of one verification, with its three clock readings |
| TotpReplay.ReplayCache.EnableOtp | backend/src/auth/auth.service.ts:221-226 | activating a new secret ignores the old counter and records the matched one |
| TotpReplay.StepsAreMethods | backend/src/auth/auth.service.ts:181-226 | a step of a run decides and stores what the methods of the cache do |
| TotpReplay.EvictionIsInvisible | backend/src/auth/auth.service.ts:51-56 | in every run on a clock that never goes back, every decision is the one a cache that never forgets would take |
| TotpReplay.AcceptedIsHistory | backend/src/auth/auth.service.ts:191-192 | the accepted counters the model keeps are exactly those read off the decisions of the run since the last new secret |
| TotpReplay.AcceptedCountersIncrease | backend/src/auth/auth.service.ts:181-192 | in every run the counters accepted for a user since the secret was set are strictly increasing |
| TotpReplay.AcceptedExactly | backend/src/auth/auth.service.ts:181-192 | in every run a text is accepted if and only if it has six digits and some counter of the window that has it as its code is later than all counters accepted under the secret |
| TotpReplay.UsedCodeIsRefused | backend/src/auth/totp.ts:107-112 | a text whose counter has been accepted, and which no later counter of the window shares, is refused |
| TotpReplay.SameCodeAcceptedTwice | backend/src/auth/totp.ts:99-112 | two counters with the same code: the same text accepted at counter 1 and again at counter 3 |
| OtpLockout.OtpLockoutService.ConsumeAttempt | backend/src/auth/otp-lockout.service.ts:41-89 | whether an undisturbed call resolves, and the row it leaves |
| OtpLockout.OtpLockoutService.Reset | backend/src/auth/otp-lockout.service.ts:106-108 | deletes the row |
| OtpLockout.NextCall | backend/src/auth/otp-lockout.service.ts:41-89 | every call of a sequential run: the first five resolve; later a call during an open window is refused without trace, and a call after its end is refused and opens the next window of the ladder |
| OtpLockout.BackoffLadder | backend/src/auth/otp-lockout.service.ts:73-83 | in a sequential run the n-th window, counting from 0, lasts min(30 000 * 2^n, 1 800 000) ms; windows never shrink, never exceed half an hour and never overlap |
| OtpLockout.AloneIsASchedule | backend/src/auth/otp-lockout.service.ts:41-89 | a call that nothing interrupts is one schedule of the interleaved steps, with the method's effect |
| OtpLockout.StepsInOrder | backend/src/auth/otp-lockout.service.ts:45-88 | a step moves its own call along its path and no other, and only increments, locks and deletions change the row |
| OtpLockout.ResolvedCallEnds | backend/src/auth/auth.service.ts:168-203 | a resolved call ends without secret, with a wrong code, or with a match, and only a match deletes the row |
| OtpLockout.AtMostFivePerEpoch | backend/src/auth/otp-lockout.service.ts:60-89 | in every interleaving, of the calls whose increment falls in a stretch without reset at most five resolve |
| OtpLockout.FiveGuessesPerMatch | backend/src/auth/auth.service.ts:165-204 | over any whole run the codes compared are at most five plus five for each code that matched |
| OtpLockout.LockoutOutlivesWindows | backend/src/auth/otp-lockout.service.ts:106-108 | some continuation compares a code again if and only if fewer than five attempts are recorded or a resolved call is still under way |
| OtpLockout.FiveWrongCodesLockOut | backend/src/auth/otp-lockout.service.ts:60-89 | after five calls with wrong codes from the start, no continuation ever compares a code again |
| Rbac.HasAccess | backend/src/rbac/rbac.service.ts:9-73 | the early-return loops answer true if and only if the user exists and is an administrator or some permission of theirs or their groups that the query selects reaches the level |
| Rbac.AccessMeans | backend/src/rbac/rbac.service.ts:9-86 | that relation spelled out on the columns of a permission: subject, machine or group with null equal to null, level |
| Rbac.LevelsOrdered | backend/src/rbac/rbac.service.ts:75-86 | an owner may do all an operator may, and nobody else an owner's |
| Rbac.BestLevel | backend/src/machines/machines.service.ts:127-150 | the running maximum is the highest level among the permissions the user holds on the machine or its group |
| Rbac.FindAllAccessible | backend/src/machines/machines.service.ts:82-153 | the list is exactly the machines of the query in table order, each with its highest level; an administrator gets every machine |
| Rbac.ListedMeans | backend/src/machines/machines.service.ts:97-115 | the query of the list spelled out on the columns of a permission |
| Rbac.ListingShows | backend/src/machines/machines.service.ts:97-152 | the entry of a machine in the list, or its absence, says exactly which levels the user's permissions on it or its group reach |
| Rbac.AdminListingShows | backend/src/machines/machines.service.ts:83-87 | an administrator's list shows exactly the existing machines, at every level |
| Rbac.ListedHasLevel | backend/src/machines/machines.service.ts:150 | a listed machine always carries a level |
| Rbac.CheckAndListAgree | backend/src/rbac/rbac.service.ts:9-73 | for every user, machine and level, the check agrees with the list `findAllAccessible` gives if and only if: for an administrator the machine exists; for others it has a group, or no permission they hold elsewhere reaches the level, or one on the machine does |
| Rbac.GroupedMachinesAgree | backend/src/rbac/rbac.service.ts:24-44 | for a machine in a group they agree without condition |
| Rbac.UngroupedMachinesDiffer | backend/src/rbac/rbac.service.ts:40 | the owner of one machine passes the check for an ungrouped machine that the list does not show |
| Rbac.GroupsOfListedMachines | backend/src/machines/machine-groups.service.ts:30-56 | a machine group with machines is listed if and only if one of its machines is |
| Permissions.PermissionsController.AssertManager | backend/src/rbac/permissions.controller.ts:46-85 | an administrator, or an owner of the machine whose request concerns neither them nor a group of theirs |
| Permissions.PermissionsController.Create | backend/src/rbac/permissions.controller.ts:168-269 | outcome and new table of an undisturbed request, every refusal included |
| Permissions.PermissionsController.Remove | backend/src/rbac/permissions.controller.ts:296-319 | outcome and new table of an undisturbed removal, every refusal included |
| Permissions.CreateDecides | backend/src/rbac/permissions.controller.ts:168-269 | from the request, directory and table alone: malformed, forbidden, unknown subject, or accepted, and in no other case |
| Permissions.CreateStores | backend/src/rbac/permissions.controller.ts:251-269 | an accepted request leaves the row of the returned id with its level, scope and subject, and every row for another subject or scope as it was |
| Permissions.RemoveDecides | backend/src/rbac/permissions.controller.ts:296-319 | a removal succeeds if and only if the row is there and the caller is an administrator or an owner of its machine whom it does not concern; it then removes that row and no other |
| Permissions.CreateGrants | backend/src/rbac/permissions.controller.ts:251-269 | a permitted request for an existing subject succeeds, leaves the requested level for the pair whether or not it had one, and changes no other row |
| Permissions.RemoveRevokes | backend/src/rbac/permissions.controller.ts:319 | a permitted removal removes that row and no other |
| Permissions.TableStaysWellFormed | backend/src/rbac/permissions.controller.ts:173-188 | in every interleaving every row has one subject and one scope, and no two rows are for the same pair |
| Permissions.OwnersKeepTheirAccess | backend/src/rbac/permissions.controller.ts:238-249 | in every interleaving a step of a caller who is no administrator leaves every row naming them or their groups, so that the check answers the same on every machine and their list stays the same list, and touches no machine-group permission |
| Permissions.CreateAloneIsASchedule | backend/src/rbac/permissions.controller.ts:168-269 | `create` undisturbed is one schedule of the interleaved steps |
| Permissions.RemoveAloneIsASchedule | backend/src/rbac/permissions.controller.ts:296-319 | `remove` undisturbed is one schedule of the interleaved steps |
| TerminalSessions.TerminalGateway.HandleMessage | backend/src/terminal/ssh.gateway.ts:491-526 | a message handler up to its end or its first await, in either gateway, is one step; data is written at once if and only if the stream is open and a positive check is at most five seconds old |
| TerminalSessions.TerminalGateway.ContinueMessage | backend/src/terminal/ssh.gateway.ts:505-526 | the handler after its access check is one step; data is written if and only if the answer was true and the stream is open |
| TerminalSessions.TerminalGateway.ContinuePoll | backend/src/terminal/ssh.gateway.ts:348-386 | the poll after its access check is one step |
| TerminalSessions.TerminalGateway.Forward | backend/src/terminal/ssh.gateway.ts:513-526 | the tail of a handler: one output when allowed and the stream is open, or for a window size regardless; teardown when refused |
| TerminalSessions.TerminalGateway.EndSession | backend/src/terminal/ssh.gateway.ts:363-365 | ends the stream the caller holds and forgets the client's session |
| TerminalSessions.AllowedDataArrives | backend/src/terminal/ssh.gateway.ts:498-526 | a step writes data to a session if and only if its stream is open and the step carries its client's data on a positive check at most five seconds old or just received; it writes once, with the handler's clock reading |
| TerminalSessions.SizesArrive | backend/src/terminal/rdp.gateway.ts:514-529 | the same for window sizes: over RDP on an open stream whatever the cache, over SSH on a positive check whatever the stream |
| TerminalSessions.StaleMessageWaits | backend/src/terminal/ssh.gateway.ts:501-509 | a message without a check of the last five seconds waits for one and changes nothing else |
| TerminalSessions.MessageAlone | backend/src/terminal/ssh.gateway.ts:498-526 | a data message that waits for its check: written on a positive answer if the stream is open, session ended and forgotten on a negative one |
| TerminalSessions.CachedRefusalTearsDown | backend/src/terminal/ssh.gateway.ts:513-521 | a message on a fresh refusal ends its session and forgets it at once |
| TerminalSessions.AnswersAreRemembered | backend/src/terminal/ssh.gateway.ts:510 | after a check the cache holds its answer, dated by the handler's clock reading or by the moment the poll records it |
| TerminalSessions.AnswersAreGiven | backend/src/terminal/ssh.gateway.ts:505-509 | only a check that answers true adds to the answers: its own, for its session's user and machine |
| TerminalSessions.RecordsAreEarned | backend/src/terminal/ssh.gateway.ts:505-510 | only the end of a check that answered true adds a record |
| TerminalSessions.PollAlone | backend/src/terminal/ssh.gateway.ts:336-386 | a poll that nothing interrupts remembers a positive answer, and on a negative one ends the session and forgets it |
| TerminalSessions.StartAlone | backend/src/terminal/ssh.gateway.ts:262-405 | a start that nothing interrupts leads to an open session with nothing cached |
| TerminalSessions.DisconnectAlone | backend/src/terminal/ssh.gateway.ts:188-224 | a disconnect ends the stream of the client's session and forgets it |
| TerminalSessions.NothingElseHappens | backend/src/terminal/ssh.gateway.ts:272-275 | a start on a connection that has a session does nothing; a failed await and a stream closed by the target do no more than end themselves |
| TerminalSessions.InputIsFreshlyAuthorised | backend/src/terminal/ssh.gateway.ts:498-526 | in every interleaving each output but an RDP window size is backed by a check that answered true for the session's user and machine, recorded at most 5000 ms before the handler read the clock |
| TerminalSessions.RevocationWindow | backend/src/terminal/ssh.gateway.ts:336-355 | no handler that reads the clock later than 5000 ms plus one poll latency after the last positive check writes |
| TerminalSessions.RefusalTearsDown | backend/src/terminal/ssh.gateway.ts:357-385 | whoever learns of a revoked token or denied access tears the session down in the same step and writes nothing |
| TerminalSessions.NothingAfterTeardown | backend/src/terminal/rdp.gateway.ts:495-509 | after teardown no run writes to the session's stream again, suspended handlers included |
| TerminalSessions.WritesAfterTeardown | backend/src/terminal/ssh.gateway.ts:566-568 | a step writes to a session that was torn down if and only if it sets a window size over SSH on a positive answer |
| TerminalSessions.SizeAfterTeardown | backend/src/terminal/ssh.gateway.ts:549-568 | the run from the start in which a suspended resize sets the size of the session that the poll has torn down |
| TerminalSessions.EveryStepRelies | backend/src/terminal/rdp.gateway.ts:514-529 | every write of a step relies on a fresh positive answer if and only if the step is not an RDP window size on an open session whose cache is stale |
| TerminalSessions.SizeWithoutCheck | backend/src/terminal/rdp.gateway.ts:519-529 | the run from the start in which an RDP window size goes out with no check on record |
| SessionTabs.StepConserves | client/src/pages/Session.tsx:223-413 | adding adds the one session when the active group exists, closing removes the one session unless it is the last, every other update keeps the multiset of sessions |
| SessionTabs.OthersUntouched | client/src/pages/Session.tsx:223-413 | an update leaves every group it is not about exactly as it is |
| SessionTabs.TabsStayTidy | client/src/pages/Session.tsx:223-413 | after any run every session is in exactly one place of one group, no group is empty, every focused id names a member, group ids are distinct |
| SessionTabs.ActiveStays | client/src/pages/Session.tsx:325 | the active group keeps existing under an update if and only if it is not a merge into a group that has gone |
| SessionTabs.SessionLost | client/src/pages/Session.tsx:226-227 | the run from the opening of the page whose late merge activates a group that has gone, so that any session added next is lost |
| SessionTabs.AddJoins | client/src/pages/Session.tsx:223-235 | a new session goes last in the active group, focused, in a layout with room for it up to four |
| SessionTabs.CloseLeaves | client/src/pages/Session.tsx:239-261 | closing leaves the other sessions of the group in their order, in a layout that fits them, the focus moved only if it was on the one closed |
| SessionTabs.CloseLast | client/src/pages/Session.tsx:244-249 | closing a group's only session removes the group, and the first group left becomes active in its place |
| SessionTabs.CloseFocusesNeighbour | client/src/pages/Session.tsx:250-252 | closing the focused session focuses the one before it, or the first that is left |
| SessionTabs.BestLayoutFits | client/src/pages/Session.tsx:253-258 | the layout of a group that has shrunk shows all its sessions, up to four, and wastes no pane |
| SessionTabs.UpgradeFits | client/src/pages/Session.tsx:230-233 | the layout of a group that has outgrown its own has room for all sessions, up to four, and is the smallest that has |
| SessionTabs.LayoutShowsFocus | client/src/pages/Session.tsx:264-280 | after a change of layout the focused session is on screen |
| SessionTabs.LayoutDoes | client/src/pages/Session.tsx:264-280 | a change of layout keeps focus and order, but for one swap when the focused pane would be hidden |
| SessionTabs.MergeJoins | client/src/pages/Session.tsx:290-326 | an effective merge puts the session last in the target group, focused, and makes the group active |
| SessionTabs.ExtractLeaves | client/src/pages/Session.tsx:302-320 | a session dragged out leaves the others in their order, in a layout that fits them, focus on the first; a group left empty disappears |
| SessionTabs.MergeIsExtractAndAdd | client/src/pages/Session.tsx:290-326 | a merge is taking the session out and adding it to the target group |
| SessionTabs.DropSeparates | client/src/pages/Session.tsx:328-367 | an effective drop leaves the session alone in a single-pane group at the place of the drop, or at the end |
| SessionTabs.DropIsExtractAndInsert | client/src/pages/Session.tsx:349-365 | a drop is taking the session out and inserting its group, the old one if it was alone in it |
| SessionTabs.ReorderPlaces | client/src/pages/Session.tsx:403-409 | the dragged session takes the target's place and all others keep their order |
| SessionTabs.ReorderDoes | client/src/pages/Session.tsx:401-410 | a reorder moves the one session to the other's place and keeps the rest of the group |
| SessionTabs.ClickDoes | client/src/pages/Session.tsx:634 | a click focuses the session in its group and makes the group active |
| SessionTabs.SwapWithFirst | client/src/pages/Session.tsx:272-273 | the swap in the copied array exchanges two places and nothing else |
| SessionTabs.SpliceTo | client/src/pages/Session.tsx:403-409 | the two splices move one element and keep the multiset |

## Left out

- Cryptography: HMAC and SHA-256 are parameters or identities (a MAC collision is named where it matters; the token digest of the blacklist is taken as injective), JWT signing is membership in the set of issued tokens, and the vault and argon2 are not part of this model.
- PostgreSQL and Prisma: a query or a transaction is one atomic step; transport errors appear only where the code branches on them.
- JSON printing of `Date`, `BigInt` and objects with `toJSON`, sparse arrays, and an invalid date that throws: numbers are arbitrary number texts, dates arrive as their ISO strings.
- JSONB rewrites some numbers and refuses the null character; storage here only drops what JSON leaves out and forgets key order.
- `logAction`, log queries and exports: their rows go through the same `createRow`.
- A deleted user's audit rows, whose `userId` becomes null in the database, count as changed content here.
- Guacamole strings beyond 2^53 - 1 code units, which no JavaScript engine has.
- TotpReplay.EvictionIsInvisible: a restart of the process empties the cache, which the model does not do; clock readings are whole milliseconds.
- The handling of a missing or undecryptable OTP secret and the lazy re-encryption in `verifyOtp`.
- OtpLockout.BackoffLadder: only sequential runs; with overlapping calls a later and shorter window may be written last.
- AccessTokens: the handlers are steps on a value, not methods of an object; the forced password change and the checks of passwords and codes that let a handler start are inputs of the model.
- RefreshRotation: a rotation or login already under way at a revocation may still add a token afterwards; finality is about tokens recorded before.
- Rbac: two users matching one name, and the order in which the database returns machines, are inputs of the model.
- Permissions: the reads a handler makes before its first write are one step; users, groups, memberships and machines do not change during a run; audit rows are not written.
- TerminalSessions: starting, disconnecting and the token half of a poll are steps of the transition system only, not methods of the gateway object; message size and rate limits, the per-user session counts, timers, recording, and the SSH and RDP connections themselves; the starting access check only decides whether a session starts.
- SessionTabs: titles, connection status and pane sizes; `changeLayout` computes on the groups last rendered, which are taken to be the current ones.
- LDAP, OIDC, HTTP, cookies, CORS, throttling, settings, monitoring, the recorder, React rendering and drag timing: library-driven or single-branch code.
