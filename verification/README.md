# Verified model of the gateway's state machines

A Dafny model of the parts of the API gateway that keep state: crediting of
top-up orders, rate limiting, relay retries, multi-key channels, upstream model
synchronisation, price comparison, request body storage, and the small codecs
and session machines beside them. Every module models one topic and proves what
holds over all its inputs or all its runs.

Databases, the network, clocks and foreign libraries are inputs: each write has
a flag that says whether it succeeds, each reading of the clock is a parameter,
and each upstream answer is part of the input. `dafny verify dfyconfig.toml`
checks the project.

| module | topic |
|---|---|
| `OrderLock`, `TopUpCredit` | the reference-counted lock per order, and orders paid or failed under it, step by step and interleaved |
| `RateLimit` | the in-memory limiter against an unbounded log |
| `RelayRetry` | the two retry loops, refund and settlement |
| `MultiKey`, `KeyAppend` | the key list of a channel and its three index maps |
| `UpstreamSync` | detecting and applying upstream model changes |
| `RatioDiff`, `ModelsDev` | the price difference report, and one price per model from several providers |
| `OggScan` | the length of an Opus recording |
| `BodyStorage`, `RequestBody`, `BodyAccounts` | request bodies in memory and on disk, their limits and their counters |
| `RedisHash` | records as Redis hashes |
| `StepUp` | step-up verification marks in a session cookie |
| `Text`, `Common` | strings as the source splits, joins and trims them; shared types |

## What the proofs found

These are places where the code does less than one would expect. Each has a
lemma with inputs that show it, and where the failing family has a boundary,
the boundary is proved exactly.

- An order can be marked successful and never reach its user: the status is
  written first, and if the quota write then fails, or the user is not there,
  every later notification finds the order settled
  (`SuccessReachesItsUserExactly`, `LostCreditExample`, `LostCreditStaysLost`).
- The limiter forgets requests when the window is longer than the expiration
  period plus one second, and only then (`MatchesExactlyWhenWindowFits`). A
  limit of zero admits one request.
- The configured number of retries does not bound the relay loop
  (`EveryChannelIsTried`, `LoopIgnoresRetryTimes`; it does influence which
  channel is selected), and channel-level selection errors never end it
  (`ChannelErrorsNeverStop`).
- Deleting a key changes other entries when the remaining keys do not read
  back: a blank end key moves marks to other keys (`BlankLineMovesMark`), an
  array element on several lines becomes several keys
  (`MultiLineElementIsSplit`), and times are left for keys that are not there
  (`BlankLineStrandsTime`). What is shown then is in `DeletionShiftsMarks`, the
  exact conditions are in `DeleteKeyCommutes`,
  `DeleteDisabledCommutes` and `ActionKeepsRowOk`. Deleting the disabled keys
  when every key is disabled deletes nothing and enables all of them
  (`DeletingAllEnablesAll`).
- Appending new keys to a stored list that opens with `[` but is no JSON array
  loses the stored list (`BrokenArrayIsLost`; exact condition for every list in
  `AppendKeepsKeysExactly`).
- Applying upstream changes does not settle for names with a comma, and for
  names that double as ignore rules (`ConvergesExactly`, `CommaExample`,
  `RegexExample`).
- A null upstream price makes the report list a model nobody prices differently
  (`NullExample`).
- An empty read at the end of a body answers differently in memory and on disk
  (`EmptyReadAtTheEnd`).
- A body longer than declared takes the disk cache over its limit
  (`OvershootExample`; exact condition in `OvershootsExactly`).
- Of two channels with the same name only the later one counts in the price
  report (`SameNameHides`).
- The step-up marks live in a cookie the client holds, so a finished passkey
  check counts as often as a cookie with its mark is presented in time
  (`UsedTwiceExactly`, `OneFinishCountsAnyNumberOfTimes`), and once only if the
  newest cookie is always presented (`NoFinishCountsTwiceWithNewestCookie`).

## Model

| member | source | states |
|---|---|---|
| OrderLock.StepKeepsInv | controller/topup.go:270-299 | every atomic step of every thread keeps the lock invariant: owners, reference counts, table entries |
| OrderLock.RunKeepsInv | controller/topup.go:259-299 | the invariant holds in every state of every interleaved run |
| OrderLock.InvIsSafe | controller/topup.go:270-299 | the invariant gives: one holder per trade number, an entry exactly while someone claims the number, count equal to the claimants, all of them on the mapped mutex, no crash |
| OrderLock.EveryRunIsSafe | controller/topup.go:270-299 | so all of this holds in every state of every run of any number of threads |
| OrderLock.UnlockReleasesOwnMutex | controller/topup.go:285-291 | `UnlockOrder` finds the mutex its caller locked, and releases that one and no other |
| OrderLock.SomeThreadCanMove | controller/topup.go:270-299 | no deadlock: while any thread is inside, one can move or is in its critical section |
| OrderLock.EveryStepIsProgress | controller/topup.go:270-299 | every step a thread takes brings it closer, by a measure, to holding the lock or to having returned; a lock call ends in the critical section and an unlock call ends |
| OrderLock.TableEmptiesOut | controller/topup.go:293-298 | when nobody is inside, the table is empty |
| TopUpCredit.MoveKeepsInv | controller/topup.go:364-399 | every move keeps the crediting invariant, with other threads between any two database accesses and any write failing |
| TopUpCredit.HistoryKeepsInv | controller/topup.go:364-399 | the crediting invariant over every history |
| TopUpCredit.CreditedAtMostOnce | controller/topup.go:376-396 | an order leaves pending at most once, is credited at most once and only after success was written, and every quota is the initial one plus what was credited |
| TopUpCredit.SettledRowIsFinal | controller/topup_stripe.go:246-252 | a row that is no longer pending never changes again |
| TopUpCredit.RequestSettlesItsOrder | controller/topup_stripe.go:232-257 | for each gateway, a locked section run to its end writes exactly the order it is for, pending and of that gateway, with the status that belongs to it; a missing, foreign or settled order and every other order stay; a paid order raises its user's quota by its worth unless that is negative or the quota write fails; and the log says exactly that |
| TopUpCredit.OthersLeaveItAlone | controller/topup.go:364-399 | while a request is in its locked section no move of anybody else touches it or its order |
| TopUpCredit.RequestDoesItsWork | controller/topup.go:364-399 | so among any other requests, a request whose writes go through leaves the order it found settled exactly if it is for it, and otherwise as found |
| TopUpCredit.SuccessReachesItsUserExactly | controller/topup.go:381-396 | for a successful order nobody is working on there is exactly one step that could have moved a quota for it, and it raised the user's quota by the order's worth if and only if the user exists and the worth is zero, or is positive and the write went through |
| TopUpCredit.CreditStepQuota | model/user.go:885-908 | the quotas after that step: unchanged, or the one user's raised by the order's worth, with the exact condition |
| TopUpCredit.WorthIsTruncated | controller/topup.go:389-391 | the worth of an order is amount times quota per unit with the fraction dropped, towards zero |
| TopUpCredit.OtherMovesKeepQuota | controller/topup.go:364-399 | no other step changes any quota |
| TopUpCredit.LostCreditStaysLost | controller/topup.go:392-396 | an order whose quota write failed is never credited |
| TopUpCredit.LogAgreesWithRows | controller/topup.go:376-392 | every logged write agrees with the row: provider, status, user and the amount times the quota per unit, truncated |
| TopUpCredit.LostCreditExample | controller/topup.go:381-396 | full histories that end with a successful order and all quotas unchanged, for any quotas: one with a failing write, one with a user that is not there |
| RateLimit.InMemoryRateLimiter.constructor | common/rate-limit.go:14-26 | an empty store |
| RateLimit.InMemoryRateLimiter.Request | common/rate-limit.go:45-70 | the answer and the new queue are those of `Admit`, and no other key changes |
| RateLimit.InMemoryRateLimiter.ClearExpiredItems | common/rate-limit.go:28-42 | exactly the keys whose newest entry is expired are removed |
| RateLimit.YoungBelow | common/rate-limit.go:52-63 | looking at one entry decides whether fewer than the limit are young, for any sorted log |
| RateLimit.LimiterMatchesFullLog | common/rate-limit.go:28-70 | after any requests and cleanups, a request is accepted exactly when fewer than the limit of all accepted requests are younger than the window |
| RateLimit.AcceptedTimesAreTheFullLog | common/rate-limit.go:28-70 | the accepted times of every history are those of the unbounded log |
| RateLimit.WindowHoldsAtMostTheLimit | common/rate-limit.go:52-63 | no window of the given length holds more accepted requests than the limit |
| RateLimit.LongerWindowIsForgotten | common/rate-limit.go:36-38 | for every longer window there is a history after which the limiter accepts what the log refuses |
| RateLimit.MatchesExactlyWhenWindowFits | common/constants.go:167-168 | limiter and log agree on every history if and only if the window is at most the expiration period plus one |
| RelayRetry.RelayLoop | controller/relay.go:189-260 | the loop ends as the round machine does: same error, same channels, same exit, and it stops at the first round that ends it |
| RelayRetry.RelayTaskLoop | controller/relay.go:535-616 | the same for the task loop, with or without a locked channel |
| RelayRetry.RoundsAreBounded | controller/relay.go:192-220 | a loop still running after its rounds has had at most three per channel plus the channel-level errors |
| RelayRetry.BoundIsReached | controller/relay.go:206-218 | for every number of channels, every setting and every error worth a retry there are inputs that use the bound up, and one more makes the loop give up |
| RelayRetry.NeverSentTwice | controller/relay.go:206-222 | no channel is sent to twice; the used list has no duplicates, starts with the sent ones and holds exactly the tried channels |
| RelayRetry.EveryChannelIsTried | controller/relay.go:343-373 | with any number of channels and any configured retries, channels that all answer with an error worth a retry are all sent the request, in the order of selection |
| RelayRetry.RefusedRoundGoesOn | controller/relay.go:343-373 | after any rounds, a refusal by a new channel is followed by another round if and only if there was no affinity failure and the error is the channel's own, or retrying is not ruled out by the error, the caller's choice of a channel, a success status or a skip list |
| RelayRetry.SpecificChannelIsSentOnce | controller/relay.go:355-357 | a request for a specific channel is sent at most once and the loop ends with it, unless the error is the channel's own |
| RelayRetry.LoopIgnoresRetryTimes | controller/relay.go:256-256 | for the same selections both loops end the same for every configured number of retries, unless a channel is locked |
| RelayRetry.ChannelErrorsNeverStop | controller/relay.go:192-200 | any number of channel-level selection errors leaves the loop running with no error recorded |
| RelayRetry.ErrorIffRefund | controller/relay.go:169-178 | an ended loop has an error exactly if its last attempt did not succeed; then one refund is issued with billing and none without, and after a success none |
| RelayRetry.UnlockedTaskIsRelay | controller/relay.go:557-616 | without a locked channel the task loop is the relay loop |
| RelayRetry.LockedChannelIsBounded | controller/relay.go:541-556 | a task bound to a channel is submitted at most twice, or one more time than the configured retries if these are at least one, always to that channel, and the loop ends whatever the inputs |
| RelayRetry.LockedBoundIsReached | controller/relay.go:541-556 | for every setting and error there are inputs that reach that number, and the round after it gives up with the last error |
| RelayRetry.RefusedTaskGoesOn | controller/relay.go:665-695 | after any rounds of the task loop, a refused submit is followed by another round if and only if there was no affinity failure, no channel was asked for, and the status is 429, 307, a server error that is not skipped, or anything else that is neither a success nor a local error |
| RelayRetry.ReportedErrorIsTheLast | controller/relay.go:535-616 | the error left behind is the one that the last round to come up with any came up with, on a locked channel or not |
| RelayRetry.SettleOrRefund | controller/relay.go:522-526 | an ended task run either settles with its result and refunds nothing, or settles nothing and refunds once |
| RelayRetry.SettledWithLastAnswer | controller/relay.go:600-650 | the settled result is that of the submit that ended the loop |
| Text.SplitJoin | model/channel.go:109-131 | splitting a joined list gives the list back when no part holds the separator |
| Text.ReadJoined | model/channel.go:128-130 | a joined list reads as the lines of its parts without the empty ones at both ends, whatever the parts hold |
| Text.ReadBack | model/channel.go:109-131 | trimming and splitting a joined list gives it back if and only if its ends are not empty or it has one part |
| MultiKey.ListKeys | controller/channel.go:1507-1550 | the per-key view and the three counts |
| MultiKey.DisableEnabled | controller/channel.go:1724-1744 | exactly the enabled positions are disabled; the count is zero exactly if there was none |
| MultiKey.RebuildWithout | controller/channel.go:1777-1809 | the re-indexed lists without one position |
| MultiKey.RebuildWithoutAutoDisabled | controller/channel.go:1840-1877 | the re-indexed lists without the automatically disabled positions, and how many went |
| MultiKey.Channel.Update | model/channel.go:478-545 | a failed write changes nothing; a good one keeps the old key text when the new one is empty and recounts the keys |
| MultiKey.Channel.GetKeyStatus | controller/channel.go:1489-1550 | the view of the stored row |
| MultiKey.Channel.DisableKey | controller/channel.go:1603-1644 | the row after the action, with its range check and failing write |
| MultiKey.Channel.EnableKey | controller/channel.go:1646-1686 | the same |
| MultiKey.Channel.EnableAllKeys | controller/channel.go:1688-1710 | the same |
| MultiKey.Channel.DisableAllKeys | controller/channel.go:1712-1757 | the same, refusing when nothing is enabled |
| MultiKey.Channel.DeleteKey | controller/channel.go:1759-1837 | the same, refusing to delete the last key |
| MultiKey.Channel.DeleteDisabledKeys | controller/channel.go:1839-1896 | the same, refusing when nothing is disabled |
| MultiKey.DisableKeyView | controller/channel.go:1603-1637 | disabling a key turns its entry and no other |
| MultiKey.EnableKeyView | controller/channel.go:1664-1679 | enabling a key turns its entry, without time and reason, and no other |
| MultiKey.EnableAllView | controller/channel.go:1695-1703 | enabling all keys leaves every entry enabled, without times and reasons |
| MultiKey.DisableAllView | controller/channel.go:1724-1750 | disabling all keys turns exactly the enabled entries |
| MultiKey.RebuiltView | controller/channel.go:1783-1809 | the view of the rebuilt lists is the old view with the dropped entries left out, for any set of dropped positions |
| MultiKey.SaveDraft | model/channel.go:478-545 | saving a rebuilt list keeps its view if and only if its keys read back: the joined text is that very array, or opens none and no key holds a newline or is empty at an end |
| MultiKey.DeleteKeyCommutes | controller/channel.go:1777-1824 | after deleting a key from any list the view is the old view without that entry if and only if the remaining keys read back |
| MultiKey.DeleteDisabledCommutes | controller/channel.go:1840-1892 | after deleting the disabled keys of any list the view is the old view filtered if and only if there were none or the remaining keys read back |
| MultiKey.DeletionShiftsMarks | controller/channel.go:1819-1824 | what a stored deletion shows, whether it commutes or not: the lines of the remaining keys without the blank ones at both ends, with the marks of the remaining keys in their order |
| MultiKey.MarkMovesBy | controller/channel.go:1819-1824 | on one-line keys every mark moves on by as many keys as there are blank ones at the front |
| MultiKey.BlankLineMovesMark | controller/channel.go:1777-1824 | for any two plain keys around a blank one, deleting the first moves the blank one's mark to the last |
| MultiKey.MultiLineElementIsSplit | controller/channel.go:1819-1821 | an array element on two lines becomes two keys when the other element is deleted |
| MultiKey.DeletingAllEnablesAll | controller/channel.go:1879-1892 | when every key is automatically disabled, deleting them keeps all keys and enables them |
| MultiKey.SizeIsTheNumberOfKeys | model/channel.go:490-507 | after any actions on any list the stored size is the number of keys if and only if the key text is not an empty array |
| MultiKey.EmptyArrayExample | model/channel.go:494-507 | deleting all but an element that is an empty array leaves a row of size one without a key |
| MultiKey.ActionKeepsRowOk | controller/channel.go:1603-1892 | any action, written or not, on any list in order keeps size and the three maps in range if and only if it is no stored deletion, or the keys that stay read as at least one key and each of them with a time or reason gets a position below their number without the blank lines at both ends |
| MultiKey.ActionsKeepRowOk | controller/channel.go:1603-1892 | over every sequence of actions every row is in order if and only if that holds at every step |
| MultiKey.BlankLineStrandsTime | model/channel.go:508-515 | with a blank line in the list a deletion leaves a time for a key that is not there |
| MultiKey.PlainKeysStayInOrder | controller/channel.go:1603-1892 | lists of visible one-line keys that open no array stay such lists and in order under every sequence of actions |
| KeyAppend.TrimLines | controller/channel.go:944-950 | the trimmed non-empty lines, in order |
| KeyAppend.MarkSeen | controller/channel.go:953-960 | the set of trimmed keys already there |
| KeyAppend.Dedupe | controller/channel.go:961-972 | the new keys not seen before, in order |
| KeyAppend.AppendKeys | controller/channel.go:904-976 | the stored text after an append |
| KeyAppend.AddedKeys | controller/channel.go:944-972 | the added keys are trimmed, not empty, pairwise distinct and new, and every line asked for is there or was |
| KeyAppend.AddedInOrder | controller/channel.go:944-972 | the added keys are submitted lines, trimmed, in the order they were submitted |
| KeyAppend.AppendGivesOldThenNew | controller/channel.go:913-975 | for every stored list and every input the keys afterwards are exactly the old ones and then the added ones if and only if the stated condition holds |
| KeyAppend.AppendedViewExactly | controller/channel.go:904-975 | for every row in order the view afterwards is the old view, marks included, and then the added keys, enabled, under exactly that condition |
| KeyAppend.AppendKeepsKeysExactly | controller/channel.go:913-975 | for every stored list, of lines or an array, whole or broken, and every input: the old keys are still in front if and only if the stated condition on the stored text and the input holds |
| KeyAppend.AppendKeepsViewExactly | controller/channel.go:904-975 | for every row in order the old entries of the view stay, with their marks, under exactly that condition, and then the row stays in order and new keys are enabled |
| KeyAppend.BrokenArrayIsLost | controller/channel.go:913-925 | a list that opens an array it is not is replaced by the added keys: any other key it had can no longer be read |
| KeyAppend.AppendIsIdempotent | controller/channel.go:904-975 | for every list and input whose stored text opens no array, appending the same input again leaves the keys as they are, and the text if and only if it has no newlines at its ends or consists of them |
| KeyAppend.PlainListsAppend | controller/channel.go:922-925 | lists of lines with visible text that opens no array get exactly the added keys, and a second append changes nothing |
| UpstreamSync.MergeModelNames | controller/channel_upstream_update.go:104-118 | the merged list |
| UpstreamSync.NormalizeKeeps | controller/channel_upstream_update.go:97-102 | normalising keeps every visible name, trimmed, at the place where it comes first, in order |
| UpstreamSync.MergeKeepsOrder | controller/channel_upstream_update.go:104-118 | a merged list is the first list and then what is new of the second, in its order |
| UpstreamSync.SubtractKeepsOrder | controller/channel_upstream_update.go:120-129 | subtracting keeps the order of the first list |
| UpstreamSync.IntersectKeepsOrder | controller/channel_upstream_update.go:131-140 | intersecting keeps the order of the first list |
| UpstreamSync.MergeIs | controller/channel_upstream_update.go:104-118 | merge is union: trimmed, not empty, no duplicates, members of either |
| UpstreamSync.SubtractIs | controller/channel_upstream_update.go:120-129 | subtract is difference on normalised names |
| UpstreamSync.IntersectIs | controller/channel_upstream_update.go:131-140 | intersect is intersection on normalised names |
| UpstreamSync.ApplySelectedIs | controller/channel_upstream_update.go:142-147 | applying a selection: an added name stays even if it is also removed |
| UpstreamSync.PendingAddIs | controller/channel_upstream_update.go:176-224 | offered for adding are exactly the upstream names that are not local, not a redirect target and not ignored |
| UpstreamSync.OfferedExactly | controller/channel_upstream_update.go:210-224 | the same in terms of the rules' texts: an upstream name is offered if and only if it is new, no redirect target, not itself a plain rule, and matched by no pattern that follows `regex:` in a rule |
| UpstreamSync.PlainRulesHideThemselves | controller/channel_upstream_update.go:210-224 | without patterns among the rules exactly the ignored names are hidden |
| UpstreamSync.PendingRemoveIs | controller/channel_upstream_update.go:176-235 | offered for removal are exactly the local names that are not upstream and not a redirect source |
| UpstreamSync.ModelsReadBack | model/channel.go:216-221 | a stored list of names without commas reads back as itself |
| UpstreamSync.AppliedSettings | controller/channel_upstream_update.go:793-816 | for any selection: only pending names count, ignored ones become rules, added ones stop being rules, exactly the rest stays pending, the time is recorded and the automatic switch stays |
| UpstreamSync.AppliedModels | controller/channel_upstream_update.go:796-806 | for any selection the stored models are the old ones without the removed and with the added if and only if no added name has a comma |
| UpstreamSync.ConvergesExactly | controller/channel_upstream_update.go:780-828 | detecting again after applying everything offers nothing if and only if no offered name has a comma and none of them was the rule that ignored another upstream name |
| UpstreamSync.ConvergesOnPlainNames | controller/channel_upstream_update.go:176-235 | it offers nothing for all upstream names without commas and without the rule prefix |
| UpstreamSync.CommaExample | controller/channel_upstream_update.go:780-828 | a name with a comma is offered again |
| UpstreamSync.RegexExample | controller/channel_upstream_update.go:214-220 | adding a name that is a rule lets the names it ignored through |
| UpstreamSync.AutoSyncSettles | controller/channel_upstream_update.go:360-407 | automatic addition leaves nothing to add if and only if no offered name has a comma, and leaves the removals as detected |
| UpstreamSync.DetectedIs | controller/channel_upstream_update.go:360-407 | a detection keeps the rules and the switch, records its time and the names to remove, and leaves the models alone and the names to add pending unless adding is both asked for and switched on |
| UpstreamSync.ModelSync.Check | controller/channel_upstream_update.go:360-407 | the settings after a check: unchanged within the interval or when the write fails, only the time when fetching fails, else as detected |
| UpstreamSync.ModelSync.Apply | controller/channel_upstream_update.go:780-828 | the settings after applying, unchanged when the write fails, and whether the models changed |
| RatioDiff.CompareField | controller/ratio_sync.go:595-641 | one entry of the first pass, and whether it is listed |
| RatioDiff.CompareModel | controller/ratio_sync.go:594-653 | one row of the first pass |
| RatioDiff.CompareModels | controller/ratio_sync.go:593-654 | the first pass: exactly the listed pairs, with their values |
| RatioDiff.DifferingChannels | controller/ratio_sync.go:656-665 | the channels with a difference anywhere in the first pass |
| RatioDiff.PruneRow | controller/ratio_sync.go:668-688 | one row of the second pass |
| RatioDiff.Prune | controller/ratio_sync.go:667-693 | the second pass: entries restricted to those channels, kept if still interesting, no empty row |
| RatioDiff.ShownIs | controller/ratio_sync.go:605-629 | what is shown for a channel tells whether it differs, for every pair of values |
| RatioDiff.NumbersAreCompared | controller/ratio_sync.go:48-62 | two numbers in a price field differ exactly if they are at least a billionth apart, whatever kinds they are written in |
| RatioDiff.KindsMatterElsewhere | controller/ratio_sync.go:125-132 | in the fields that hold no prices a whole number always differs from a float |
| RatioDiff.TextsAreCompared | controller/ratio_sync.go:605-629 | two texts differ exactly if they are different and the upstream one is not the marker for no difference |
| RatioDiff.NewValuesDiffer | controller/ratio_sync.go:605-629 | a value that is not there locally differs exactly if it is neither null nor that marker |
| RatioDiff.BuildDifferences | controller/ratio_sync.go:536-696 | for any channels: a pair is reported exactly if it survives; of the channels that are shown, one per name, exactly those that differ anywhere are listed, with the values they supply; no other name and no empty row |
| RatioDiff.ReportedIffSomeChannelDiffers | controller/ratio_sync.go:593-693 | with distinct names and without null and literal "same" values, a pair survives exactly if some channel differs from the local value |
| RatioDiff.NullExample | controller/ratio_sync.go:593-693 | with a null value a pair survives though no channel differs |
| RatioDiff.SameNameHides | controller/ratio_sync.go:626-626 | of two channels with one name, a difference of the earlier one is not reported if the later one never differs |
| ModelsDev.OfferIsUsable | controller/ratio_sync.go:845-878 | an offer carries the provider's own prices, none negative, drops only an invalid cache price, and has a zero output price if its input price is zero |
| ModelsDev.OfferExactly | controller/ratio_sync.go:845-878 | a provider makes an offer for a model if and only if it lists it with a finite input price that is not negative, any output price is finite and not negative too, and a positive output price does not come with a zero input price; the offer has the listed price |
| ModelsDev.AddProvider | controller/ratio_sync.go:923-943 | one provider's offers replace the held ones exactly where they should |
| ModelsDev.SelectCandidates | controller/ratio_sync.go:915-944 | the selection is the fold over the providers, for every model |
| ModelsDev.LessIsAsymmetric | controller/ratio_sync.go:881-893 | the tie-break on names never holds both ways |
| ModelsDev.LessIsLexicographic | controller/ratio_sync.go:881-893 | names are ordered by their first different character, a name before its continuations |
| ModelsDev.CheapestWithinOneEpsilon | controller/ratio_sync.go:845-893 | over any number of providers in name order: something is selected if and only if some provider lists the model with usable prices, it is that provider's listed price, non-zero if any is, below every non-zero one plus one billionth, and otherwise the zero of the first provider in name order |
| ModelsDev.ErrorAddsUp | controller/ratio_sync.go:881-893 | out of name order the error adds up: for every n there are n + 1 providers whose selection is dearer than the cheapest by n times 0.9e-9 |
| OggScan.OpusDuration | common/audio.go:196-254 | on any bytes the loop ends, and the duration is the highest granule position found, not below zero, over 48000 |
| OggScan.SegmentSum | common/audio.go:242-245 | the sum of the segment sizes |
| OggScan.LittleRoundTrip | common/audio.go:229-229 | reading back a little-endian number gives the number |
| OggScan.FindsExactlyThePages | common/audio.go:207-249 | for every list of pages with junk between, and every cut: the scan comes to exactly the pages whose header came through, at the bytes where they start, each once and in order |
| OggScan.DurationIsTheHighestPosition | common/audio.go:229-232 | for a complete file the result is the highest position of its pages; negative ones do not count |
| OggScan.CutIsNoLonger | common/audio.go:207-249 | cutting a file finds a prefix of its pages and never makes it longer |
| OggScan.NothingStraddles | common/audio.go:220-226 | no page can be found that starts in junk and ends in the page after it |
| BodyStorage.Counters.constructor | common/disk_cache_config.go:91-91 | all counters zero |
| BodyStorage.Counters.IncrementDiskFiles | common/disk_cache_config.go:109-112 | one file and its size more |
| BodyStorage.Counters.DecrementDiskFiles | common/disk_cache_config.go:115-122 | one file and its size less, corrected to zero |
| BodyStorage.Counters.IncrementMemoryBuffers | common/disk_cache_config.go:125-128 | one buffer and its size more |
| BodyStorage.Counters.DecrementMemoryBuffers | common/disk_cache_config.go:131-134 | one buffer and its size less |
| BodyStorage.MemoryStorage.constructor | common/body_storage.go:37-45 | an open body at the start, counted |
| BodyStorage.MemoryStorage.Read | common/body_storage.go:47-54 | answers and moves as the machine does |
| BodyStorage.MemoryStorage.Seek | common/body_storage.go:56-63 | the same |
| BodyStorage.MemoryStorage.Bytes | common/body_storage.go:74-81 | the same, and nothing moves |
| BodyStorage.MemoryStorage.Close | common/body_storage.go:65-72 | the same, and the counters go down on the first close only |
| BodyStorage.MemoryStorage.Size | common/body_storage.go:83-85 | the same, closed or not |
| BodyStorage.DiskStorage.constructor | common/body_storage.go:100-130 | an open body at the start, counted |
| BodyStorage.DiskStorage.Read | common/body_storage.go:169-176 | as the machine, but for empty reads at the end |
| BodyStorage.DiskStorage.Seek | common/body_storage.go:178-185 | as the machine |
| BodyStorage.DiskStorage.Bytes | common/body_storage.go:198-230 | seeking, reading all and seeking back answers with all bytes and leaves the position |
| BodyStorage.DiskStorage.Close | common/body_storage.go:187-196 | as the machine, and the counters go down on the first close only |
| BodyStorage.DiskStorage.Size | common/body_storage.go:232-234 | as the machine, closed or not |
| BodyStorage.ReadFull | common/body_storage.go:217-222 | reading until the buffer is full gives exactly the next bytes, or an error when they are not there |
| BodyStorage.SameAnswers | common/body_storage.go:47-238 | every run without empty reads gets the same answers from memory and disk, and leaves both in the same state |
| BodyStorage.EmptyReadAtTheEnd | common/body_storage.go:169-176 | an empty read is answered alike exactly if the position is before the end |
| BodyStorage.RunKeepsTheBytes | common/body_storage.go:47-89 | no run changes the bytes or the size; a run with a close ends closed |
| BodyStorage.ClosedAnswersNothing | common/body_storage.go:65-89 | after a close everything fails but closing again and the size |
| BodyStorage.ReadsGiveTheBytes | common/body_storage.go:47-54 | reads of any sizes from the start give the bytes in order, each once, and all of them once the end shows |
| BodyStorage.EveryAttemptStartsOver | controller/relay.go:223-233 | whatever earlier attempts did short of closing, the rewind of the next one gives all bytes at offset zero |
| RequestBody.NewDiskStorage | common/body_storage.go:100-130 | the file form, or nothing and no count when the file system fails |
| RequestBody.CreateBodyStorage | common/body_storage.go:241-259 | to disk exactly if the disk cache is on, the body has at least the threshold size, it fits what is left of the limit and the file system works, otherwise to memory; the bytes whole and counted once |
| RequestBody.NewDiskStorageFromReader | common/body_storage.go:132-167 | the whole body or none of it, with the reason |
| RequestBody.CreateBodyStorageFromReader | common/body_storage.go:262-303 | the outcome for every stream, declared length and file system: stored whole, too large, or failed, and the count; when nothing breaks, stored exactly if the body is at most the limit and too large exactly if it is longer |
| RequestBody.Request.GetRequestBody | common/gin.go:36-83 | the first call takes the body and closes the connection's; later calls give the same storage rewound, or fail if it was closed |
| RequestBody.Request.UnmarshalBodyReusable | common/gin.go:108-137 | gives all bytes and leaves the body at offset zero |
| RequestBody.Request.CleanupBodyStorage | common/gin.go:98-106 | the body is closed, forgotten and counted off once |
| BodyAccounts.NextBalances | common/disk_cache_config.go:108-134 | every creation and close keeps the counters equal to the open bodies |
| BodyAccounts.CountersAreTheOpenBodies | common/disk_cache_config.go:108-134 | after every history the counters are the number and the total size of the open bodies |
| BodyAccounts.ClampNeverFires | common/disk_cache_config.go:115-122 | closing an open file never makes a counter negative |
| BodyAccounts.DiskUsageStaysWithinTheLimit | common/disk_cache_config.go:170-177 | if bodies are no longer than declared, usage never exceeds the limit |
| BodyAccounts.OvershootsExactly | common/body_storage.go:266-280 | over every history usage exceeds the limit at some point if and only if some stream was let onto the disk by its declared length when its true length did not fit |
| BodyAccounts.OvershootExample | common/body_storage.go:266-280 | any body longer than the limit, declared short enough to be let in, does so at once |
| RedisHash.NumberOfDigits | common/redis.go:209-214 | the number written in decimal is the number read |
| RedisHash.ParseFormatInt | common/redis.go:209-214 | parsing a printed 64-bit integer gives it back, and it is printed with a sign exactly if it is negative |
| RedisHash.ParseFormatBool | common/redis.go:215-220 | parsing a printed boolean gives it back |
| RedisHash.ParseIntReads | common/redis.go:209-214 | a text of digits, with or without a sign and leading zeros, is read as its number if that fits 64 bits and refused otherwise |
| RedisHash.ParseBoolReads | common/redis.go:215-220 | the six spellings of each truth value are read, and nothing else |
| RedisHash.Encode | common/redis.go:113-144 | one text for every field but the deletion date, and nothing else |
| RedisHash.Decode | common/redis.go:187-236 | succeeds exactly if there is a hash and every field can be read, and then sets every field; on failure exactly the fields before the first unreadable one are set, that one is left as it was or, if it was a nil pointer, as a pointer to a zero value, and the rest is untouched |
| RedisHash.RoundTrip | common/redis.go:113-144 | what comes back for each field, when it can be read at all and when it is the value that was written |
| RedisHash.LoadingDoesNotReset | common/redis.go:187-231 | loading over a filled record leaves a field the hash does not have, a pointer whose text is empty and a deletion date whose text is empty as they were |
| RedisHash.DatesAreLoaded | common/redis.go:221-231 | a text under a deletion date is loaded as one exactly if it is a date, and fails the load otherwise |
| RedisHash.SaveAndLoad | common/redis.go:107-239 | reading a written record into a zero one succeeds exactly if something was written and all kinds are known, and gives the record back exactly if every field survives |
| StepUp.Session.constructor | controller/secure_verification.go:14-26 | no marks |
| StepUp.Session.MarkPasskeyReady | controller/passkey.go:485-493 | ready set and verified removed, or nothing when the save fails |
| StepUp.Session.ConsumePasskeyReady | controller/secure_verification.go:157-179 | the ready mark is removed and counts if younger than 60 seconds; a failing save is an error |
| StepUp.Session.SetSecureVerification | controller/secure_verification.go:145-155 | verified set with its method and ready removed, or nothing when the save fails |
| StepUp.Session.UniversalVerify | controller/secure_verification.go:63-131 | the marks and the answer of one call, on all its paths |
| StepUp.Session.RequireSecureVerificationMethod | controller/passkey.go:559-576 | met by an unexpired verification of the same method; an expired one is removed |
| StepUp.NextKeepsInv | controller/secure_verification.go:145-179 | every call, whatever issued cookie it presents and whatever is saved, keeps the invariant that ties the marks of all cookies to what happened, and takes nothing back |
| StepUp.RunKeepsInv | controller/secure_verification.go:85-179 | the invariant over every run in which each call presents any cookie issued before, with a clock that does not go back |
| StepUp.NewestIsTheSession | main.go:175-183 | the cookie a call gives back carries the session its operation leaves behind |
| StepUp.NothingIsRevoked | main.go:175-183 | no later call takes an issued cookie, or what it carries, back |
| StepUp.NeverReadyAndVerified | controller/passkey.go:485-490 | no cookie ever issued has both marks |
| StepUp.DemandMetExactly | controller/passkey.go:559-576 | a demand made with any issued cookie is met if and only if the cookie carries a verification by that method less than 300 seconds old; a passkey verification rests on a check finished less than 60 seconds before it was used |
| StepUp.VerifiesExactly | controller/secure_verification.go:63-131 | whatever cookie it presents, a call is answered yes and recorded if and only if the user is enabled, the marks could be saved, and it has a code that is not empty and passes its check, or a ready mark less than 60 seconds old that could be taken |
| StepUp.EveryVerificationIsEarned | controller/secure_verification.go:63-131 | every verification of every run goes back to such a call, of the same method and time |
| StepUp.StaleVerificationIsRemoved | controller/passkey.go:559-569 | a demand made with a verification of 300 seconds or more gives back a cookie without it, and with the ready mark it had |
| StepUp.UseCarriesOneVerification | controller/secure_verification.go:126-126 | no use of a finished check carries two verifications |
| StepUp.UsedAsOftenAsPresented | controller/secure_verification.go:157-179 | over every run a finished check is used exactly as often as a cookie with its ready mark is presented in time |
| StepUp.UsedTwiceExactly | controller/secure_verification.go:157-179 | a finished check is used twice if and only if its ready mark is presented in time twice |
| StepUp.KeptCookieCountsAgain | controller/secure_verification.go:98-126 | whatever has happened since, presenting a kept cookie in time gives another verification |
| StepUp.OneFinishCountsAnyNumberOfTimes | controller/secure_verification.go:98-126 | for every n a run with one finished check and n verifications resting on it |
| StepUp.NoFinishCountsTwiceWithNewestCookie | controller/secure_verification.go:157-179 | in runs that always present the newest cookie no finished check is used twice |

## Left out

- Other writers of orders (`Recharge`, `CompleteSubscriptionOrder`, manual completion, expiry) and the payment signature checks: no claim is made about histories that include them.
- The subscription and Midjourney billing paths, and the token and channel quota accounting.
- Wall clocks that go back: the limiter and session results assume times in order.
- Concurrency outside the order lock: the limiter and the body storages are modelled as sequences of whole operations, as their own locks make them; two bodies taken in at once may both be let in by the same reading of the usage counter. A session call reads nothing but the cookie presented with it.
- 64-bit overflow of counters, quotas and offsets, and seek targets a file system refuses.
- IEEE 754 rounding: prices are reals; a cost that is not a finite number is an explicit case.
- RateLimit.InMemoryRateLimiter.Request: a negative limit is not modelled, since allocating the queue panics.
- MultiKey.Channel.GetKeyStatus: the status filter, the pages and the shortened key text of the answer are not modelled; the view holds the whole key.
- RelayRetry.LoopIgnoresRetryTimes: the selection of a channel is an input; it reads the configured retries itself when a request may move between groups.
- KeyAppend.AppendIsIdempotent: not stated for new texts that open an array, whose second reading depends on the JSON parser.
- KeyAppend.AppendKeys: the branch for service-account keys given as JSON objects is not modelled.
- RatioDiff.BuildDifferences: the confidence flags of the report are not modelled.
- RatioDiff.ReportedIffSomeChannelDiffers: assumes distinct channel names, which upstreams supplied without an ID need not have; `SameNameHides` shows what happens then.
- ModelsDev.SelectCandidates: turning the selected prices into rounded ratios is not modelled.
- OggScan.OpusDuration: the reader returns as many bytes as are there; readers with short reads are not modelled.
- RequestBody.Request.UnmarshalBodyReusable: decoding, and its early return before the body is rewound, are not modelled.
- RequestBody.Request.GetRequestBody: the older cached byte slice of a context, and the megabyte setting behind the limit, are not modelled.
- BodyAccounts.CountersAreTheOpenBodies: age-based removal of files and resetting of the counters are not events of a history.
- RedisHash.Decode: date parsing is a given set of accepted texts, and pointers to dates are not modelled.
- StepUp.RunKeepsInv: the 30-day age limit of a cookie is not modelled, and a presented cookie that was never issued is an empty session, as its signature makes it.
- StepUp.Session.UniversalVerify: WebAuthn and the code check are inputs, and logging in as another user in the same session is not an event of a run.
- HTTP handling, JSON binding, logging, the administrative controllers and the user interface: no property of their own.
