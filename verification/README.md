# sponsord, verified

A Dafny model of the sponsored on-ramp: the gateway (`sponsord`), which signs a capped, expiring
capability for whoever passes a captcha, and the wrapper (`decdn-sponsored`), which gives each download
a throwaway key, obtains a capability for it and hands both to `decdn`. `dafny verify dfyconfig.toml`
checks the whole project.

## Modules

| file | what it holds |
|---|---|
| `Types.dfy` | 64-bit arithmetic, grants, records, configuration |
| `WrapperSteps.dfy` | the session directory and the wrapper's atomic file operations, as a step relation |
| `Sessions.dfy`, `Flow.dfy` | the session object and `pull`, changing files in place; each records every moment at which it could be killed |
| `FlowProperties.dfy` | what a pull, a series of re-runs and a removal cut short guarantee |
| `Protocol.dfy`, `ProtocolSafety.dfy` | gateway handlers, wrapper sessions and kills as one transition system, and its safety over every run |
| `Runs.dfy`, `Refinement.dfy` | event sequences that continue a run; the imperative pull, among anything others do, is one, and its outcome is a hand-over of that run |
| `SoloRun.dfy`, `Residues.dfy` | a session going on alone; which removals may be cut short without harm, exactly |
| `StrandedRun.dfy` | two whole runs in which a removal cut short does harm |
| `Fund.dfy`, `SerialIssue.dfy` | the two endpoints served one request at a time: spacing, rate, stability, exposure |
| `InterleavedIssue.dfy`, `Spacing.dfy` | spacing and number of live tokens when handlers interleave |
| `InterleavedGet.dfy` | `GET /capability` with anything between its lookup and its answer |
| `Polling.dfy` | the deadline loop over `GET /capability` |
| `PoolWatch.dfy` | the low-water sweep over a pool that others drain, with top-ups that are mined late |
| `Templates.dfy`, `Numerals.dfy`, `Installer.dfy`, `ReleaseTag.dfy` | `str::replace` passes over templates, decimal numerals, the rendering of the installers, and the release pins they embed |
| `HashNames.dfy` | spellings of a hash and the directory they open |
| `Utf8.dfy`, `Store.dfy` | the record codec and the byte table |
| `Arithmetic.dfy` | products and quotients of variables |

## The protocol

A state holds the clock (which may be set to anything at any time), the grant table, any number of
`POST /fund` handlers, each stopped between two of its steps (captcha, clock, lookup, sign, put), any
number of `GET /capability` handlers stopped between lookup and answer, and any number of wrapper
sessions, each stopped between two file operations. An answer may reach a wrapper at any later time;
which of the two endpoints gave it is recorded, and the safety results hold for either, although the
wrapper only asks by GET. A wrapper may be killed at any point; an I/O error ends a run in the same
way. Truncating a file before writing it is a step of its own, so half-written files are states of the
model.

Assumed of the outside: a generated key is new; a token decodes to the fields it was signed over and a
proper prefix of one does not decode; generating and persisting a keystore is one step; one wrapper
process runs per hash; `decdn` leaves the three session files alone; the configuration is constant; the
table starts empty; a failed put leaves the table as it was.

Four results need a word of care.

* That a key is handed over with at most one capability, its own, is not true of every run. A discard
  or a repair killed half-way can strand a capability without its key, which a new key is then handed
  over with (`StrandedRun.DiscardCutShortMismatches`), or a key without its capability, which then gets
  a second one (`StrandedRun.RotationCutShortRepeatsKey`); both are whole runs of the gateway and the
  wrapper with a single kill. The run-level theorems hold for "gentle" runs: every removal that is cut
  short leaves a harmless residue, that is, no usable key that was handed over and has lost its
  capability, and no capability that has lost its key, unless every later run finds it expiring (from
  time 0 on if the clock may be set to anything, from the time of the kill on if it only rises). That
  premise is exact: a kill at any other point of a removal can be continued, without another kill, to a
  hand-over that breaks the pairing (`Residues.HarmlessExactly`). Runs whose discards complete once
  started are gentle, wherever else they are killed (`ProtocolSafety.DiscardsCompleteIsGentle`).
  `FlowProperties.InterruptedDiscard` says for a single pull and a given gateway when it keeps the pairing.
* That the nine passes of the installer act as one substitution, whatever the template, is not true of
  every configuration (`Installer.PlaceholderInUrlIsReplacedAgain`). It is true if and only if what a
  later pass looks for neither occurs in a URL nor is begun at its end: for the public URL the
  placeholders of the RPC URL, the pool, the bond and the chain, for the RPC URL those of the last
  three; or the RPC URL is configured to be its own placeholder
  (`Installer.RenderIsSimultaneous`). A brace such as that in `https://x/{id}/` does no harm.
* That two tokens for one signer are a lifetime apart holds for serial requests. When handlers
  interleave it can fail even for two that do not overlap, because a third, slower one overwrites the
  first token with one of an older clock reading (`InterleavedIssue.OvertakingBreaksSpacing`). With a
  clock that only rises, the moment of a store decides: while the token just stored is unexpired, all
  handlers that look up later will keep the distance, however the run goes on, if and only if no handler
  that is past its lookup for the signer read the clock so early that its token would expire first
  (`Spacing.SpacedBeforeExpiry`; `Spacing.SpacedExactly` without the restriction to that time).
* The pool's balance stays under low water - 1 + refill (or the initial one) except for top-ups credited only
  after they were reported as failed: each of these raises the bound by one refill, and the bound is
  reached (`PoolWatch.BalanceUnderCeiling`, `PoolWatch.LateCreditsPassCeiling`).

The comments of `session.rs` say that a key whose password is missing is replaced "together with the
capability bound to it". The code removes the keystore first and the capability second, so a kill in
between leaves the capability; the model follows the code.

## Model

| member | source | states |
|---|---|---|
| ProtocolSafety.OneCapabilityPerKey | crates/wrapper/src/flow.rs:28-75 | In every gentle run, over any interleaving of handlers and sessions, two hand-overs of one key carry the same capability, and that capability names the key |
| ProtocolSafety.KeyAndCapabilityAgree | crates/wrapper/src/session.rs:91-132 | In every gentle run, a directory with a keystore and a decodable capability holds a capability of that keystore's address, with the configured pool and cap, signed by the gateway |
| ProtocolSafety.DiscardsCompleteIsGentle | crates/wrapper/src/session.rs:140-142 | A run whose discards complete once started is gentle, wherever else it is killed, whether its clock may go back or not |
| ProtocolSafety.CompleteRunInv | crates/wrapper/src/session.rs:95-102 | In such a run no keystore loses its password, and the repair branch of `ensure_key` is never entered |
| Residues.HarmlessExactly | crates/wrapper/src/session.rs:91-142 | For a gentle run inside a removal: killed now, keys and capabilities stay paired in every gentle continuation if and only if the residue holds no usable key that was handed over and lost its capability, and no capability that lost its key, unless it will be found expiring |
| Residues.StrandedKey | crates/wrapper/src/flow.rs:28-52 | A key that was handed over and lost its capability to a kill can be handed over with another one, of a later expiry where there is one, and answered by a GET where there is time left |
| Residues.StrandedCapability | crates/wrapper/src/flow.rs:28-52 | A capability outside the margin that lost its key to a kill can be handed over with a new key |
| ProtocolSafety.CompleteDirectoryStays | crates/wrapper/src/flow.rs:28-75 | In every run: a complete directory whose expiry checks stay outside the margin survives any number of runs that fail or are killed anywhere, unchanged, and the gateway is never asked |
| StrandedRun.DiscardCutShortMismatches | crates/wrapper/src/flow.rs:28-75 | A whole run of gateway and wrapper whose only kill is inside a discard: key 1 is generated, funded, answered by a GET and handed over with its capability, and after the kill key 2 is handed over with that same one |
| StrandedRun.RotationCutShortRepeatsKey | crates/wrapper/src/flow.rs:28-52 | A whole run whose only kill is inside a rotation, once the capability is gone: the gateway re-issues at the token's expiry, and key 1 is handed over with two capabilities of different expiries, both answered by a GET |
| ProtocolSafety.HandoversAreGenuine | crates/wrapper/src/flow.rs:40-68 | In every run, killed anywhere, `decdn` only ever starts with a complete keystore and a decodable capability signed by the gateway for its pool and cap |
| ProtocolSafety.PasswordOpensKeystore | crates/wrapper/src/session.rs:91-106 | In every run, killed anywhere, a password file beside a keystore is complete and is the password the keystore was sealed under |
| ProtocolSafety.RacingHandlersAreBenign | crates/server/src/http/fund.rs:58-93 | Under every interleaving, each stored record is for its signer with the configured cap and pool and one expiry = issued + ttl, saturating; each 200 answer is a token signed for one lifetime from a handler's clock reading, unexpired at the answering handler's reading or just issued |
| ProtocolSafety.TokensNeverOutnumberCaptchas | crates/server/src/http/fund.rs:52-83 | Under every interleaving, the signatures made for a signer are at most the captchas passed for it |
| ProtocolSafety.GatewayInvStep | crates/server/src/http/fund.rs:46-94 | Every step of every handler keeps the invariant of table, handlers, lookups and answers; what the steps do, beyond keeping it, is in the two uninterrupted rows and `InterleavedGet` |
| ProtocolSafety.SessionsInvStep | crates/wrapper/src/session.rs:91-142 | Every step of the system, kills included, keeps what each program point of each session relies on |
| ProtocolSafety.PairsInvStep | crates/wrapper/src/flow.rs:28-52 | Every gentle step keeps keys and capabilities paired across all sessions |
| Refinement.PullExtendsRun | crates/wrapper/src/flow.rs:24-76 | A protocol run continued by the steps of a pull, with anything the gateway, the clock and other sessions may do between them, is a protocol run that contains the pull's hand-overs |
| Refinement.ActsTellOutcome | crates/wrapper/src/flow.rs:40-76 | A pull starts `decdn` exactly when it reports a hand-over, with exactly that key and capability; a key it generates is the one handed over, and what it saves is what the gateway gave it |
| Refinement.OutcomeIsHandedOver | crates/wrapper/src/flow.rs:24-76 | For the trail of the imperative pull, woven into any run: its outcome is a hand-over of that run, hence of a complete key with a token signed by the gateway, and in gentle runs the key's own and only one |
| Sessions.Session.EnsureKey | crates/wrapper/src/session.rs:91-106 | New directory and client for every prior contents, with each intermediate moment a legal atomic step; a key is generated exactly when none is usable |
| Sessions.Session.WritePassword | crates/wrapper/src/session.rs:177-190 | Truncation, then the whole secret; nothing else changes |
| Sessions.Session.SaveCapability | crates/wrapper/src/session.rs:130-132 | Truncation, then the token; nothing else changes |
| Sessions.Session.Discard | crates/wrapper/src/session.rs:140-142 | Ends empty whatever the order of removal, one file at a time |
| Flow.Rotate | crates/wrapper/src/flow.rs:28-38 | Empties the directory exactly when its capability expires within 300 seconds of the clock, at the end of time always, and otherwise leaves it |
| Flow.EnsureCapability | crates/wrapper/src/flow.rs:41-52 | No request when a capability is saved; otherwise what the gateway gave is taken and saved, or nothing changes |
| Flow.Run | crates/wrapper/src/flow.rs:54-75 | `decdn` is started once, on what is reported; what is left after its success or failure |
| Flow.Deliver | crates/wrapper/src/flow.rs:40-76 | From a key on: outcome, directory left and everything done, whether a capability was saved or not and whatever the gateway answers |
| Flow.Pull | crates/wrapper/src/flow.rs:24-76 | The outcome and directory of an uninterrupted pull, everything it does to the outside in order, and a trail of atomic steps that extends the old one |
| FlowProperties.MismatchExactly | crates/wrapper/src/flow.rs:28-52 | From any directory contents a mismatched pair is handed over exactly when a decodable capability outside the margin met no keystore or a usable keystore of another address; every other hand-over matches |
| FlowProperties.GatewayIsHonest | crates/server/src/http/capability.rs:26-31 | What the other pull results assume of the gateway's answers follows from the table invariant of every run |
| FlowProperties.KeepsExactly | crates/wrapper/src/flow.rs:28-68 | From a complete directory the old key and capability are handed over at once if and only if the capability expires more than 300 seconds after the clock; otherwise the key handed over is the one drawn |
| FlowProperties.MarginIsFiveMinutes | crates/wrapper/src/flow.rs:16-38 | Within the margin means expiry <= now + 300, also where the sum saturates |
| FlowProperties.FirstAnswerDecides | crates/wrapper/src/flow.rs:40-75 | Without a decodable capability: a token in the first answer is saved and handed over with the key after one request, and an error in it stops the pull with the key kept |
| FlowProperties.AsksUntilDecided | crates/wrapper/src/flow.rs:43-75 | After a first 204 the first poll that is no 204 within ten minutes decides: its token is saved and handed over, or the pull stops, with the number of requests made |
| FlowProperties.SomeRequestDecides | crates/wrapper/src/api.rs:76-92 | There always is such a poll, or a 204 past the ten minutes |
| FlowProperties.ExpiringStartsAfresh | crates/wrapper/src/flow.rs:30-38 | A pull from an expiring capability goes on as from an empty directory |
| FlowProperties.KeyWithoutPassword | crates/wrapper/src/session.rs:91-106 | An unexpired capability is kept beside a new key if there was no keystore, and given up if there was one without its password |
| FlowProperties.UnreadableStops | crates/wrapper/src/session.rs:91-123 | A capability or a keystore that cannot be read ends the pull before any request |
| FlowProperties.ExpiryRestoresAgreement | crates/wrapper/src/flow.rs:30-38 | A run started within the margin hands over a new key with its own capability |
| FlowProperties.ResumeNeedsNoGateway | crates/wrapper/src/flow.rs:68-75 | Any number of failed re-runs outside the margin hand over the same pair with no request |
| FlowProperties.StateLeftBehind | crates/wrapper/src/flow.rs:40-76 | Success leaves nothing; failure leaves what was handed over; a pull that got no capability keeps its key, and the next run asks about the same client |
| FlowProperties.InterruptedDiscard | crates/wrapper/src/session.rs:140-142 | For every residue of a removal, before a gateway whose time does not fall below its first reading and whose replaced tokens do not come back: the next hand-over is the old pair or a fresh key with its own capability if and only if no usable key lost its capability (or the gateway still has that one, unexpired, at the first request) and no unexpired capability lost its keystore |
| FlowProperties.RepeatsExactly | crates/server/src/http/capability.rs:26-33 | A pull is answered a given token exactly when the gateway has it, unexpired, at the first request |
| FlowProperties.OneRotationPerCall | crates/wrapper/src/flow.rs:28-52 | One call generates at most one key, rotates at most once and starts `decdn` at most once |
| FlowProperties.RequestsPerPull | crates/wrapper/src/flow.rs:16-50 | A pull makes at most 302 requests |
| Fund.Server.Submit | crates/server/src/http/fund.rs:46-94 | The new table and the reply for every outcome of parsing, captcha, lookup, signing and put |
| Fund.Server.Get | crates/server/src/http/capability.rs:21-35 | The reply for every outcome of parsing and lookup, expiry included |
| Fund.SerialIsUninterrupted | crates/server/src/http/fund.rs:46-94 | A request served alone, whatever it meets (a body without client, a refused or failed captcha, an earlier token, a failed lookup, signing or put), does what the protocol's handler does with nothing interleaved: its steps are enabled in turn, with the same table and the same answer, if any |
| Fund.GetIsUninterrupted | crates/server/src/http/capability.rs:21-35 | A GET served alone: its two steps are enabled in turn, change nothing but the answers, and add exactly the answer that serving it gives, or none for a 204 |
| InterleavedGet.GetAnswersWhatItFound | crates/server/src/http/capability.rs:26-33 | With anything in between, the answer is the record found at the lookup if it is unexpired on the clock at the answer, and otherwise there is none; nothing else changes |
| InterleavedGet.LookupStands | crates/server/src/http/capability.rs:26-33 | What was looked up stands, and the handler can answer at any time after it |
| Fund.SubmitReplies | crates/server/src/http/fund.rs:46-94 | 400, 403, 500 and 200 each exactly when: no client, a refused captcha, a broken captcha or a failed lookup, signing or put, an unexpired or a new token; the table changes with a 200 only |
| Fund.GetReplies | crates/server/src/http/capability.rs:21-35 | 400, 500, 204 and 200 each exactly when: no client, a failed lookup, no unexpired record, an unexpired one |
| Polling.ReadsTheStatus | crates/wrapper/src/api.rs:49-67 | The wrapper takes 200 for a token, 204 for none, and every other status for an error |
| Polling.WrapperReadsGet | crates/wrapper/src/api.rs:49-67 | So it takes a malformed client or a failed lookup for an error and an expired record for none |
| SerialIssue.IssuesAreSpaced | crates/server/src/http/fund.rs:72-93 | Two stored issues for one signer are at least a lifetime apart, also when expiries saturate |
| SerialIssue.IssueRate | crates/server/src/issuer.rs:49-62 | Any window holds at most window / ttl + 1 issues per signer |
| SerialIssue.OneLiveTokenPerSigner | crates/server/src/http/fund.rs:72-93 | At every instant at most one stored token per signer is unexpired |
| SerialIssue.LiveExposure | crates/server/src/http/fund.rs:84-90 | At every instant the spending caps of all unexpired tokens stored since the table was empty add up to at most the cap times the number of signers |
| SerialIssue.StoredTokenStands | crates/server/src/http/fund.rs:72-78 | Until its expiry every GET and every captcha-passing POST for the signer answers the stored token, whatever is submitted in between |
| SerialIssue.ExpiredTokenIsAbsent | crates/server/src/http/capability.rs:26-33 | From its expiry on GET answers 204 until a POST re-issues |
| SerialIssue.EmptyExactlyWhenSigning | crates/server/src/http/capability.rs:26-33 | GET answers 204 exactly when a captcha-passing POST would answer with a new signature |
| Spacing.SpacedExactly | crates/server/src/http/fund.rs:66-93 | With a clock that only rises, at each store: every later store for the signer by a handler not yet past its lookup is a lifetime later, however the run goes on, if and only if each handler past its lookup will leave a record that lasts as long, or the clock is already past that time and no handler that read it before can reach that record's expiry |
| Spacing.SpacedBeforeExpiry | crates/server/src/http/fund.rs:66-93 | While the stored token is unexpired, that is: if and only if no handler past its lookup holds a reading whose token would expire first |
| InterleavedIssue.SpacedUnlessOvertaken | crates/server/src/http/fund.rs:66-93 | Under every interleaving, clock going back included, two stored issues for one signer, the second by a handler that looked up after the first store, are a lifetime apart unless a store of an older reading came in between |
| InterleavedIssue.OvertakerWasOpen | crates/server/src/http/fund.rs:66-93 | With a clock that does not go back, only a handler that had read its clock before the first store, and was still open at it, can come in between |
| InterleavedIssue.OvertakingBreaksSpacing | crates/server/src/http/fund.rs:66-93 | A whole run in which one does: two handlers that do not overlap store tokens less than a lifetime apart, both live at once |
| InterleavedIssue.LiveTokensWereInFlight | crates/server/src/http/fund.rs:72-93 | With a clock that does not go back and no such store, the unexpired tokens stored for a signer are at most the handlers past their lookup for it when the first of them was stored |
| Polling.Poll | crates/wrapper/src/api.rs:76-92 | Every request before the last was empty and before the deadline; a time-out has an empty last answer at or past it |
| Polling.PollCapability | crates/wrapper/src/api.rs:76-92 | The loop stops at the first request that decides, for every sequence of answers and readings |
| Polling.PacedExactly | crates/wrapper/src/api.rs:81-90 | Two polls are at least 2000 ms apart, and that is all that is assumed of their times |
| Polling.RequestsAreBounded | crates/wrapper/src/api.rs:81-91 | At least one and at most ceil(timeout / 2 s) + 1 requests |
| Polling.StoredGrantIsNeverMissed | crates/wrapper/src/api.rs:49-92 | A grant stored by the deadline and unexpired at the next poll is obtained |
| PoolWatch.Run | crates/server/src/pool_watch.rs:20-45 | The loop's effect on pool and wallet over any schedule of redemptions, failures and late credits |
| PoolWatch.Pool.TopUp | crates/server/src/treasury.rs:87-101 | Credits the pool and debits the wallet by the amount, leaves a top-up pending, or changes nothing; the amount is reported exactly when it was credited without an error |
| PoolWatch.RemainingSaturates | crates/server/src/treasury.rs:77-85 | The balance is the rest of the deposit, and none where more was redeemed |
| PoolWatch.RedeemingDrains | crates/server/src/treasury.rs:77-85 | A redemption takes what is asked for out of the balance, or all there is |
| PoolWatch.LandingSettles | crates/server/src/treasury.rs:87-101 | A late top-up that is mined is no longer pending, whether it moved its amount or reverted |
| PoolWatch.FundsAreConserved | crates/server/src/treasury.rs:77-101 | Wallet, remaining balance and payouts keep their sum; the wallet has paid one refill per credit, timely or late |
| PoolWatch.BalanceUnderCeiling | crates/server/src/pool_watch.rs:27-44 | At every moment the balance is at most the initial one or low water - 1 + refill, and one refill for each credit that came after its top-up was reported as failed, though reads are stale |
| PoolWatch.LateCreditsPassCeiling | crates/server/src/treasury.rs:87-101 | For every k, a schedule of one wallet's top-ups in the order they were sent, k of them mined only after they were reported as failed, after which the balance is exactly k refills above the ceiling |
| PoolWatch.OutflowIsBounded | crates/server/src/pool_watch.rs:27-44 | After any timely credit the wallet has paid strictly less than low water + refill + late credits + redeemed - initial balance |
| PoolWatch.QuietCredits | crates/server/src/pool_watch.rs:27-44 | With nothing else happening to the pool the mark is reached if and only if exactly ceil(shortfall / refill) ticks were credited, and there are never more |
| PoolWatch.WorkingTicksConverge | crates/server/src/pool_watch.rs:27-44 | With enough in the wallet each working tick counts until the mark is reached, and none after |
| PoolWatch.StillCredits | crates/server/src/pool_watch.rs:27-44 | Without redemptions at most ceil(shortfall / refill) ticks are credited in time, however many late top-ups are mined beside them |
| PoolWatch.StillConverges | crates/server/src/pool_watch.rs:27-44 | With late top-ups mined at any time, every working tick is credited until the mark is reached, ceil(shortfall / refill) of them reach it, and it stays reached |
| Templates.PassesAreSimultaneous | crates/server/src/http/installer.rs:24-35 | Any number of successive passes over any template equal one simultaneous substitution when each value is left alone by the later passes |
| Templates.PassOrderIsFree | crates/server/src/http/installer.rs:24-35 | Orders of the passes in which that is so give the same text |
| Templates.ReplaceIsFill | crates/server/src/http/installer.rs:24-35 | One `replace` fills exactly its own placeholders, whatever it inserts: no match in literals, at seams or in other placeholders |
| Installer.RenderIsSimultaneous | crates/server/src/http/installer.rs:20-35 | For every configuration with accepted pins: rendering puts each documented value in its place (for the chain the numeral of its number), whatever the template, if and only if nothing a later pass looks for occurs in a URL or is begun at its end (or the RPC URL is its own placeholder) |
| Numerals.DecimalExactly | crates/server/src/http/installer.rs:34 | The numeral inserted has no leading zero and says the number, read from its last digit, and no other string does |
| Installer.NoPlaceholderIsLeft | crates/server/src/http/installer.rs:24-35 | If in addition no two opening braces meet in or after a URL, no `{{` remains in a rendered template whose placeholders are all known |
| Installer.NoneIsLeftExactly | crates/server/src/http/installer.rs:24-35 | Where rendering is one substitution, no `{{` remains in any template whose placeholders are all known, if and only if neither URL has two opening braces in a row or ends in one |
| Installer.RenderOrderIsFree | crates/server/src/http/installer.rs:24-35 | Any order of the nine passes in which later passes leave the values alone renders the same |
| Installer.EveryOrderIsSettled | crates/server/src/http/installer.rs:24-35 | With URLs that no placeholder occurs in, or is begun at the end of, that is every order |
| Installer.PlaceholderInUrlIsReplacedAgain | crates/server/src/http/installer.rs:24-35 | An accepted configuration and a template for which rendering is not one substitution: a public URL naming the chain's placeholder is rendered as the chain's number |
| Templates.BracesInValuesAreReplacedAgain | crates/server/src/http/installer.rs:24-35 | A placeholder inside a value is replaced by a later pass, and the order then matters |
| Installer.FundPageIsSimultaneous | crates/server/src/http/fund.rs:23-38 | For every client its guard admits, the captcha page puts the sitekey and the client in their places, whatever the page, if and only if the client's placeholder neither occurs in the sitekey nor is begun at its end |
| Installer.AdmitsExactly | crates/server/src/http/fund.rs:23-31 | The guard admits exactly 40 hex characters of either case, bare or after `0x` |
| Installer.FundPageSwapped | crates/server/src/http/fund.rs:23-38 | The other order of its two passes would be one substitution for every sitekey |
| ReleaseTag.AcceptsExactlyVersions | crates/server/src/config.rs:65-83 | The accepted tags are exactly v N . N . N with an optional suffix |
| ReleaseTag.AcceptsByCharacter | crates/server/src/config.rs:41-83 | A pin is accepted exactly when, character by character, its tag is v, three dotted runs of digits and an optional suffix of letters, digits, dots and dashes after a dash, and its digest is 64 lower-case hex digits |
| ReleaseTag.VersionIsUnique | crates/server/src/config.rs:65-83 | A tag has one decomposition |
| ReleaseTag.SplitJoin | crates/server/src/config.rs:73-77 | Splitting undoes joining |
| ReleaseTag.PinIsInert | crates/server/src/config.rs:41-57 | An accepted pin has no brace, quote, space or `$` |
| HashNames.NormalizesExactly | crates/wrapper/src/session.rs:28-41 | The answer is r if and only if the input is white space, nothing or `b3:` or `0x`, 64 hex digits, and white space, and r is those digits in lower case |
| HashNames.SpaceIsListed | crates/wrapper/src/session.rs:29 | White space is the 25 code points of Unicode's property |
| HashNames.ImageIsCanonical | crates/wrapper/src/session.rs:28-41 | Accepts exactly the spellings; the image is the 64-character lowercase hex strings |
| HashNames.Idempotent | crates/wrapper/src/session.rs:28-41 | Normalising twice changes nothing |
| HashNames.SameDirectoryIffSameHash | crates/wrapper/src/session.rs:56-60 | Two spellings open one directory if and only if they spell the same bytes |
| Utf8.DecodesExactlyUtf8 | crates/server/src/store.rs:49-51 | Decoding accepts exactly the byte sequences of section 4 of RFC 3629 |
| Utf8.DecodeEncode | crates/server/src/store.rs:25 | Every string survives encoding |
| Utf8.EncodeDecode | crates/server/src/store.rs:49-51 | Every accepted byte sequence is the encoding of its decoding |
| Utf8.EncodingKeepsOrder | crates/server/src/store.rs:25 | Scalars encode in their order (section 1 of RFC 3629), so no two of them are exchanged |
| Store.EncodeRecord | crates/server/src/store.rs:20-27 | What is written for a record is read back as that record, field by field: bytes 0-7 the cap, 8-15 the expiry, 16-23 the issue time, big-endian, and the token from byte 24 |
| Store.DecodeInvertsEncode | crates/server/src/store.rs:20-58 | Every record survives the codec |
| Store.EncodeInvertsDecode | crates/server/src/store.rs:20-58 | Every accepted byte string is the encoding of its record |
| Store.DecodeAcceptsExactly | crates/server/src/store.rs:29-58 | Accepts exactly 24 bytes followed by well-formed UTF-8, and says which part is wrong |
| Store.FirstByteWeighsMost | crates/server/src/store.rs:22-24 | The integers are big-endian |
| Store.Store.PutGrant | crates/server/src/store.rs:77-85 | The table, read as a plain map, gains or replaces the signer's record |
| Store.Store.GetGrant | crates/server/src/store.rs:87-95 | Reads the plain map; fails exactly on a row that is not a record |
| Store.BytesAgreeWithMap | crates/server/src/store.rs:77-95 | Any sequence of puts and gets over the bytes answers as a plain map does |

## Left out

- EIP-712 hashing, signatures, the `dcap1:` codec and keystore encryption: not part of this repository; tokens are opaque values that decode to what was signed.
- HTTP routing, JSON, the Turnstile call, redb transactions and RPC: I/O; they become nondeterministic outcomes, and a table transaction is one step.
- The `PaymentPool` contract: a deposit and a redeemed counter; it never pays more than it holds, and a top-up that would overflow the deposit fails. `ensure_allowance` before a top-up is part of the top-up's success or failure.
- Deposits into the pool by others than the sweep, and payments into the hot wallet. That one wallet's transactions are mined in the order they were sent is not modelled: the pool bounds hold for every order.
- The endless sweep: the model runs it for any finite number of ticks.
- Two wrapper processes on one directory: the code takes no lock and makes no claim.
- The buyer-channel store in the session directory, file modes, the browser, environment and TOML loading, `expand_home`, `to_args` and the installers' own shell logic: platform plumbing.
- `read_address` on a foreign keystore: a keystore file is missing, complete, or unreadable to it.
- The bodies of the two installer templates: the results hold for every template made of literals and placeholders; that the assets have this shape is not proved.
- Byte-level lengths of non-ASCII input to `normalize_hash` and `is_release_tag`: such input is refused either way, so the model counts characters.
