# Doublethink, verified

A Dafny model of the parts of the doublethink broker and its clients whose correctness is not
visible in any one function: concurrent state, an attach protocol, and hand-written bit arithmetic.

* **Retained store.** `StoreMachine` takes every Lua script and every single Redis command as one
  step; an append is two steps (read the configuration, run the script) and a sweep is many, so any
  number of appends and sweepers interleave freely. Clock readings come with the steps.
  `StoreConservation` and `StoreSafety` prove the counters exact up to the sweepers' unpaid debts and
  the limits and quotas safe in every reachable state. `Contiguity` proves the stored numbers an
  interval when expiries are appended in order, and `SweepHoles` that this is exactly what it takes;
  `Pages` and `Retention` say what a catch-up page holds and why a message is not on it;
  `SweepUnobservable` compares a run with the same run without its sweeps; `SweepExamples` holds the
  runs that break what is not true in general.
  `StoreObject` is the store as a class whose loops are proved against the machine's functions.
* **Broker.** `BrokerMachine` is the fan-out core with one step per locked region and per closing;
  `BrokerObject` is the same as heap objects, proved to take the machine's steps.
* **Attach protocol.** `Attach` runs the store machine and the broker machine side by side with
  publishers (append then publish, or publish then append) and readers (subscribe, read a page, take
  live frames). `AttachNoLoss` proves what is never lost and says exactly what can be; `SeamExactness`
  treats the reader's view of one publisher as a run of numbers; `AttachExamples` and `SeamExample`
  hold the concrete runs.
* **Browser cryptography.** `Rfc7693` and `Rfc5869` state BLAKE2b-256, HMAC and HKDF on 64-bit words
  and octets; `BrowserBlake2b`, `BrowserHash` and `KeyDerivation` are the hand-written versions on
  pairs of 32-bit halves, arrays and a lazily flushed buffer, proved to compute them.
* **Base 32.** `Rfc4648` is the encoding as arithmetic on one big number; `Base32Codecs` holds the
  app's and the browser's loops over a 32-bit accumulator that overflows silently.
* **Token bucket, tickets, registry, dedup.** `TokenBucketSpec` and `TokenBucketObjects`, `Grants`,
  `Registry` and `RegistryObjects`, and `DedupWindow`.

Five findings came out of the proofs, each with a run that shows it and the exact condition beside it:

1. A sweeper *can* be observed. Between its deletion of an expired entry and its decrements the
   counters are too high, and an append in that gap evicts a live message for nothing
   (`MidSweepAppendLosesLiveMessage`); it cannot be observed exactly when, at every append, what exact
   counters would keep of the unexpired entries also fits with the debts on top (`UnobservableIffRoom`);
   where an account's quota bears on the channel, the quota must also answer every append as it would
   without the sweeps (`UnobservableIff`).
2. Lowering a channel's TTL leaves holes in the stored numbers (`LoweredTtlLeavesHole`).
3. So does a constant TTL when two appenders, both under way, read the clock in one order and reach the
   store in the other (`CrossingReadingsLeaveHole`): the reading is taken in Go before the script runs. From any state
   without a hole, sweeping makes none exactly if no stored entry outlasts a newer one
   (`SweepsLeaveNoHoleIff`). The readings of sweeps do not matter.
4. The public HTTP path, which publishes before it appends, can lose a message to a subscriber that
   attaches in between, against the comment at `internal/transport/transport.go:924`
   (`PublishFirstCanLose`); for either order a live subscriber misses exactly what was published before
   it subscribed and, when it read its page, was not numbered yet or was gone (`MissedIff`).
5. Catch-up then live is not always in order: a message published after the subscription and evicted
   before the page is read arrives after newer ones (`NewerBeforeOlder`); it is in order exactly when
   the store still has the first message since the subscription to read, or has nothing to read, or
   nothing has come since (`SeamIsSeamlessIff`).

## Model

| member | source | states |
|---|---|---|
| Eviction.NothingOverNothingEvicted | internal/store/messages.go:46-51 | counters that are over neither max_msgs nor max_bytes evict nothing, so a full ring keeps all its messages |
| Eviction.OnlyExcessIsEvicted | internal/store/messages.go:46-62 | with any evicted entry put back, the entries from it on are over max_msgs in count or max_bytes in bytes, the counters' error counted in, and what is kept is over neither |
| Eviction.EvictIsLongestFit | internal/store/messages.go:46-62 | the eviction loop ends and leaves precisely the longest suffix that fits both caps, the counters' error counted as extra load; 0 means uncapped |
| Eviction.LongestFitUnique | internal/store/messages.go:46-62 | that suffix is determined by the entries, the caps and the counters' error alone |
| Eviction.EvictKeepsError | internal/store/messages.go:58-61 | every eviction takes off the counters exactly what it takes out of the stream |
| Eviction.NewestSurvives | internal/store/messages.go:46-62 | with exact counters the new message survives its own append if and only if it is within max_bytes or max_bytes is off |
| Eviction.StoredWithinLimits | internal/store/messages.go:46-62 | what is stored after the loop is within both caps even when the counters over-count |
| StoreConservation.AppendKeepsChannel | internal/store/messages.go:32-63 | an append is never refused for its id, keeps the counters' error, and moves the account by what the stored bytes moved |
| StoreConservation.StructureKept | internal/store/messages.go:118-149 | every step of appends, configuration and sweeps keeps stream ids ascending below the next one and every sweeper's snapshot consistent with what is stored |
| StoreConservation.CountersKept | internal/store/messages.go:136-146 | every step keeps each channel and account counter equal to the true total plus exactly the pending decrements |
| StoreConservation.ConservedInEveryRun | internal/store/messages.go:118-149 | conservation holds in every state of every interleaving with any number of sweepers stopped between any two commands |
| StoreSafety.CountersNeverBehind | internal/store/messages.go:140-144 | no counter is ever below the true total, hence none is ever negative |
| StoreSafety.ExactWhenNothingIsOwed | internal/store/messages.go:136-146 | once no sweeper owes anything every counter is exact, so nothing was subtracted twice or forgotten |
| StoreSafety.WhatCreateStores | internal/store/methods.go:42-56 | a new channel is empty, with the limits it is given, and numbers from one |
| StoreSafety.WhatSetLimitsStores | internal/store/methods.go:114-132 | limits that are set are the channel's and nothing else of it changes |
| StoreSafety.WhatAnAppendStores | internal/store/messages.go:37-43 | an append that is let through stores the old entries and, under the next number, the message with its size and with an expiry of the reading plus the TTL or never, from some entry on |
| StoreSafety.LimitsHoldAfterEveryAppend | internal/store/messages.go:46-62 | right after every append of every run the entries stored are within the limits that append read, mid-sweep or not |
| StoreSafety.AccountNeverOverCap | internal/store/messages.go:32-35 | with a constant positive cap no account counter ever exceeds it |
| StoreSafety.QuotaIsSafe | internal/store/messages.go:32-35 | with a constant positive cap an owner's true bytes over all its channels never exceed its counter, which never exceeds the cap |
| StoreSafety.NumbersNeverReused | internal/store/messages.go:37-43 | of two appends to a channel in one run the later gets the higher number |
| StoreSafety.NoAppendRefusedForItsId | internal/store/messages.go:37-40 | the explicit stream id is always above all earlier ones, and the only refusal is the account quota, exactly when it would be exceeded |
| Contiguity.SweepersMissNothing | internal/store/messages.go:125-139 | in every run, whatever the readings, a sweeper has passed over nothing that it would delete: what of its snapshot's range it would delete is still to come |
| Contiguity.NextVictimIsOldest | internal/store/messages.go:130-139 | when expiries are in order the entry a sweeper deletes is the oldest stored, and what it leaves is the rest |
| Contiguity.ContiguousInEveryRun | internal/store/messages.go:37-43 | as long as no append stores a message that expires before one already stored, the stored numbers are consecutive up to the last one given out, in every reachable state and for any sweep readings |
| Contiguity.OneTtlIsInOrder | internal/store/messages.go:79-83 | one TTL throughout and append readings that reach the store in order are enough for that |
| Contiguity.StoredNumbersAreAnInterval | internal/store/messages.go:37-62 | then a number is stored if and only if it lies in one interval ending just below the next, mid-sweep and with evictions |
| Contiguity.OnlyTheOldestLeave | internal/store/messages.go:52-58 | then, whatever step comes next, what leaves the stream is some of its oldest entries |
| SweepHoles.SweepsLeaveNoHoleIff | internal/store/messages.go:118-149 | from any reachable state whose stored numbers are an interval, every continuation by sweep steps keeps them one if and only if no stored entry outlasts a newer one |
| SweepExamples.LoweredTtlLeavesHole | internal/store/methods.go:114-132 | a run with advancing readings and a lowered TTL after which number 2 is gone and number 1 still stored |
| SweepExamples.CrossingReadingsLeaveHole | internal/store/messages.go:68-92 | a run with one TTL in which two appenders have both read the configuration before either's script runs, and the one that read the clock later runs first, after which number 2 is gone and number 1 still stored |
| Retention.StoredUnlessGone | internal/store/messages.go:32-62 | in every run a message once numbered is stored if and only if no append, its own included, pushed it out, the entries from it on not fitting with the debts counted on top, and no sweeper deleted it |
| Retention.RecordedInEveryRun | internal/store/messages.go:37-43 | the n-th message ever appended is numbered n, and what is stored under a number is what was appended under it |
| Retention.RetainsTheNewest | internal/store/messages.go:46-62 | with constant limits, no debts at appends and expiries in order, what is stored is the end of the longest fitting end of everything ever appended, and what is missing of that was swept |
| Retention.StoredIffFits | internal/store/messages.go:46-62 | then a message is stored if and only if it and all newer ones ever appended fit the limits and no sweep has deleted it |
| Retention.OnPageUnlessGone | internal/store/messages.go:97-114 | a number given out and past the cursor is on the page if and only if it was not pushed out, not swept, not expired by the reader's clock and not past the limit |
| Retention.OnPageUnderSteadyLimits | internal/store/messages.go:97-114 | likewise under constant limits, pushed out meaning that it and all newer messages do not fit |
| Pages.PageCompleteIff | internal/store/messages.go:97-114 | a page misses something if and only if an unexpired entry lies beyond the range read |
| Pages.PageIsWhole | internal/store/messages.go:97-114 | a page whose limit covers the stream is exactly the unexpired entries past the cursor, strictly ascending |
| Pages.ShortInEveryRun | internal/store/messages.go:46-62 | when every max_msgs a channel ever has is in (0, 1000], its stream never holds more than 1000 entries |
| Pages.DefaultCatchUpIsComplete | internal/store/messages.go:97-114 | of such a channel one catch-up of 1000 is complete in every reachable state |
| Registry.RetainedFitOnePage | internal/transport/transport.go:453-456 | under the default message limit of 1000, and grants and overrides within it, any run of the message store that configures a retained channel as the create handler's requests do leaves it complete in one catch-up page, in every reachable state |
| SweepUnobservable.PageIsPrefixOfThinnedPage | internal/store/messages.go:97-114 | for any limit and any order of expiry a page is a prefix of the page after some expired entries are deleted, and equal when the limit covers the stream |
| SweepUnobservable.SweepStepNeverShortensPage | internal/store/messages.go:130-139 | in every reachable state, whatever TTLs a channel has had, no sweep step takes anything from the page of a reader whose clock is not behind the sweeper's |
| SweepUnobservable.ExactKeepsLive | internal/store/messages.go:46-62 | with exact counters, eviction among the unexpired entries keeps the unexpired of what eviction among all keeps |
| SweepUnobservable.AppendAlikeIffRoom | internal/store/messages.go:46-62 | an append with sweeper debts on the counters keeps the same live entries if and only if they fit with the debts counted on top |
| SweepUnobservable.UnobservableIff | internal/store/messages.go:32-62 | over a whole run with expiries in order, for owned and unowned channels, neither covering pages read by a clock not behind the sweeps nor the next numbers tell the sweeps from no sweeps if and only if every append was answered by the quota as without the sweeps and, if let through, had room for the debts |
| SweepUnobservable.UnobservableIffRoom | internal/store/messages.go:118-149 | over a whole run with expiries in order, where no quota bears on the channel, no covering page read by a clock not behind the sweeps tells the sweeps from no sweeps if and only if, at every append, what exact counters would keep of the store's unexpired entries also fits with the debts of that moment |
| SweepUnobservable.PaidSweepsAreUnobservable | internal/store/messages.go:118-149 | sweeps whose debts are paid whenever the channel is appended to cannot be observed |
| SweepExamples.MidSweepAppendLosesLiveMessage | internal/store/messages.go:136-141 | a run with a fixed TTL and readings in order, inside all hypotheses of UnobservableIffRoom, in which an append between a deletion and its decrements evicts a live message |
| StoreObject.SweptIsLive | internal/store/messages.go:131-134 | the sweeper's and catch-up's expiry tests agree on entries with exp >= 0 |
| StoreObject.NegativeExpirySplits | internal/store/messages.go:131-134 | on a negative exp they disagree: catch-up shows the entry and the sweeper deletes it |
| StoreObject.RetainedStore.EvictOldest | internal/store/messages.go:52-61 | the commands of one eviction: new stream, both counters and the account |
| StoreObject.RetainedStore.EvictOverLimits | internal/store/messages.go:46-62 | the loop leaves the ring `Evict` leaves and charges the account by the difference |
| StoreObject.RetainedStore.AddEntry | internal/store/messages.go:40-44 | the commands that add and count an entry |
| StoreObject.AppendIsTwoSteps | internal/store/messages.go:68-92 | the machine's reading of the configuration and its script, one after the other, are the object's append |
| StoreObject.RetainedStore.Append | internal/store/messages.go:68-92 | unknown and unretained channels are errors that change nothing; otherwise reply and whole new state are the append script's |
| StoreObject.RetainedStore.CatchUpFrom | internal/store/messages.go:97-114 | the loop returns the catch-up page |
| StoreObject.RetainedStore.PruneEntry | internal/store/messages.go:131-145 | one entry of a sweep is deleted and paid for if and only if it is expired and still stored |
| StoreObject.RetainedStore.PruneChannel | internal/store/messages.go:125-147 | an undisturbed sweep of a channel leaves its unexpired entries and takes exactly the deleted bytes and messages off the counters |
| StoreObject.RetainedStore.PruneExpired | internal/store/messages.go:118-149 | an undisturbed sweep leaves every channel its unexpired entries, moves every account with what is stored for it, and returns the number deleted |
| BrokerMachine.LivenessStep | internal/broker/broker.go:118-151 | a subscription stays registered through a step unless it unsubscribes or a publish finds its queue full, and never comes back |
| BrokerMachine.InvInEveryRun | internal/broker/broker.go:52-151 | in every run no channel is listed empty, queues are bounded, and what is closing or closed is off the register |
| BrokerMachine.LiveUntilEnded | internal/broker/broker.go:67-116 | a subscription is live from its Subscribe until the first step that is its leaving or a publish that finds 256 envelopes queued for it |
| BrokerMachine.ConsumeTakesOldest | internal/broker/broker.go:27-40 | a reader takes what was queued first, and it is then no longer queued |
| BrokerMachine.FrozenOnceRemoved | internal/broker/broker.go:92-106 | once removed a subscription stays removed and nothing more reaches it |
| BrokerMachine.EveryoneHasASegment | internal/broker/broker.go:118-151 | consumed plus queued is always a contiguous segment of the channel's publish log from its Subscribe on, reaching the end while registered |
| BrokerMachine.BoundedAndClosedOnce | internal/broker/broker.go:44-46 | a queue holds at most 256, Closed fires at most once and only after removal, and after removal it has fired unless its closing is still owed |
| BrokerMachine.OverflowDropsExactlyTheFull | internal/broker/broker.go:127-144 | a publish drops a subscriber if and only if its queue holds 256, and owes it a closing |
| BrokerMachine.PublishReportsLiveLessDrops | internal/broker/broker.go:118-151 | Publish returns the registered subscribers less those it drops |
| BrokerObject.Subscription.Offer | internal/broker/broker.go:128-130 | the non-blocking send queues in order if and only if there is room |
| BrokerObject.Subscription.Close | internal/broker/broker.go:44-46 | the first call fires Closed once, any later one does nothing, and nothing else changes |
| BrokerObject.Subscription.Take | internal/broker/broker.go:30-40 | the reader takes the oldest queued envelope |
| BrokerObject.Broker.constructor | internal/broker/broker.go:58-60 | a new broker is the machine's initial state |
| BrokerObject.Broker.Subscribe | internal/broker/broker.go:67-89 | the objects take the machine's subscribing step and the new subscription is fresh |
| BrokerObject.Broker.Unsubscribe | internal/broker/broker.go:92-106 | the machine's leaving step with the closing carried out; idempotent through `Left` |
| BrokerObject.Broker.Remove | internal/broker/broker.go:97-103 | removal from the nested maps, and of the channel when it was the last |
| BrokerObject.Broker.FanOut | internal/broker/broker.go:126-135 | the pass over the snapshot offers to each subscriber once in any order; delivered and to-be-dropped are the fitting and the full |
| BrokerObject.Broker.Publish | internal/broker/broker.go:118-151 | the machine's publishing step with its closings, and its count |
| BrokerObject.SettledHasFired | internal/broker/broker.go:40-46 | once the closings owed are carried out Closed has fired once for every subscription off the register and for no other |
| BrokerObject.AnyOrderSettles | internal/broker/broker.go:146-149 | closing the dropped outside the lock comes to the same in any order |
| Attach.StoreRuns | internal/transport/transport.go:727-824 | the store inside any run of the protocol is a run of the store machine, so all its theorems apply |
| Attach.BrokerRuns | internal/transport/transport.go:727-824 | likewise the broker |
| AttachNoLoss.PublisherGetsThrough | internal/transport/transport.go:814-822 | a publisher that is let run takes its two steps in its own order: the append runs the script on the channel's configuration and the message comes to the end of the log |
| AttachNoLoss.GoodInEveryRun | internal/transport/transport.go:814-822 | in every run a message's number is below the next one and what is stored under it is that message |
| AttachNoLoss.RunLater | internal/transport/transport.go:727-824 | nothing that has happened to a message, a reader or a number is undone later, and later numbers are higher |
| AttachNoLoss.StretchOn | internal/transport/transport.go:733-776 | from its Subscribe on a subscription has been handed exactly a stretch of its channel's log that begins there, to the end of the log while it is live |
| AttachNoLoss.PlacedInEveryRun | internal/transport/transport.go:814-822 | a message that is out stands in its channel's log at its own place |
| AttachNoLoss.SeamIsJoined | internal/transport/transport.go:733-750 | a reader's page is the catch-up of the moment it reads, and its subscription the one made before |
| AttachNoLoss.AppendFirstLosesNothing | internal/transport/transport.go:814-822 | in every interleaving a completed append-then-publish message past the cursor is missed by a live subscriber if and only if it was out before the Subscribe and, when the page was read, had been pushed out by later appends, swept, had expired or lay past the limit |
| AttachNoLoss.InLiveIff | internal/broker/broker.go:118-151 | a subscription, dropped or not, has not been handed a message if and only if it was out before the Subscribe or only after the subscription was dropped |
| AttachNoLoss.MissedIff | internal/transport/transport.go:882-892 | for either order and any subscription a completed message is missed if and only if it was out before the Subscribe or after the drop and, when the page was read, was not numbered yet or was gone for one of those reasons; a live subscription has not been dropped |
| AttachExamples.PublishFirstCanLose | internal/transport/transport.go:882-892 | the run in which publish-then-append loses a stored, unexpired message to a live subscriber |
| SeamExactness.FiledInEveryRun | internal/transport/transport.go:814-822 | with one publisher at a time whose appends succeed, the n-th message published is the one numbered n, and what is stored under n is that message |
| SeamExactness.MergeConsecutiveIff | internal/transport/transport.go:736-776 | page and live numbers without repeats are consecutive if and only if one is empty or no live number is below the page; then they run from the page's first without a gap |
| SeamExactness.SeamIsRight | internal/transport/transport.go:733-776 | the page's numbers end with the last one given out, live frames are a stretch of the log from the Subscribe on, there is no gap between, and equal numbers carry equal messages |
| SeamExactness.SeamIsSeamlessIff | internal/transport/transport.go:733-776 | for any single-publisher run with expiries in order and a covering limit the reader sees one consecutive run if and only if nothing has been delivered, or nothing was numbered since the Subscribe, or the store has nothing to read, or the first message since the Subscribe is still stored, unexpired and past the cursor |
| SeamExample.NewerBeforeOlder | internal/transport/transport.go:733-776 | a run with one TTL and readings in order in which the reader is left with message 2 and then message 1 |
| Rfc7693.IVIsSquareRoot | docs/demo-crypto.js:18-22 | the initialization vector is, as section 2.6 of RFC 7693 has it, the fractional parts of the square roots of the first eight primes |
| BrowserBlake2b.ADD64AA | docs/demo-crypto.js:33-38 | addition of two pairs of halves in place is addition modulo 2^64 and changes nothing else |
| BrowserBlake2b.ADD64AC | docs/demo-crypto.js:39-45 | likewise for a constant given as two halves, the low one possibly negative |
| BrowserBlake2b.RotateBy32 | docs/demo-crypto.js:50-51 | swapping halves is the rotation by 32 |
| BrowserBlake2b.RotateBy24 | docs/demo-crypto.js:53-54 | the shifts and exclusive ors of halves are the rotation by 24 |
| BrowserBlake2b.RotateBy16 | docs/demo-crypto.js:56-57 | likewise by 16 |
| BrowserBlake2b.RotateBy63 | docs/demo-crypto.js:59-60 | likewise by 63 |
| BrowserBlake2b.SigmaRowIsPermutation | docs/demo-crypto.js:22-30 | the table's rows are the message schedule of section 2.7 of RFC 7693 |
| BrowserBlake2b.Scratch.B2B_G | docs/demo-crypto.js:47-61 | on the shared scratch arrays it is the mixing function G of section 3.1 of RFC 7693 |
| BrowserHash.Context.Compress | docs/demo-crypto.js:62-78 | the compression is F of section 3.2 of RFC 7693 |
| BrowserHash.Context.constructor | docs/demo-crypto.js:79-84 | a new context has absorbed the empty message |
| BrowserHash.Context.Update | docs/demo-crypto.js:85-90 | after an update the context has absorbed the message so far followed by the input, whatever the pieces; the last block is never compressed early |
| BrowserHash.Context.Final | docs/demo-crypto.js:91-98 | the digest of what was absorbed, stale buffer bytes cleared |
| BrowserHash.Flushed | docs/demo-crypto.js:85-90 | the blocks compressed after n bytes are all but the last, also at exact multiples of 128 |
| BrowserHash.BrowserBlake2b256 | docs/demo-crypto.js:99-104 | unkeyed hashing is BLAKE2b-256 of section 3.3 of RFC 7693 for every input |
| BrowserHash.BrowserBlake2b256InPieces | docs/demo-crypto.js:85-98 | two updates cut anywhere hash the concatenation |
| BrowserHash.OutputByteIsHashByte | docs/demo-crypto.js:96 | the signed shift and truncation of a half give the hash's little-endian byte |
| KeyDerivation.BrowserHmac | docs/demo-crypto.js:108-115 | HMAC of section 2 of RFC 2104 with block size 128 |
| KeyDerivation.BrowserExpand | docs/demo-crypto.js:120-128 | the loop writes the first length octets of T(1), T(2), ... of section 2.3 of RFC 5869 |
| KeyDerivation.BrowserHkdf | docs/demo-crypto.js:116-129 | extract and expand of RFC 5869 over BLAKE2b HMAC, a missing salt being zeros |
| KeyDerivation.AndroidExpand | android/app/src/main/java/io/caleidoscode/doublethink/crypto/HkdfBlake2b.kt:52-71 | the app's loop computes the same expansion for the same HMAC |
| KeyDerivation.AndroidDerive | android/app/src/main/java/io/caleidoscode/doublethink/crypto/HkdfBlake2b.kt:74-77 | and the same derivation, so app and browser agree |
| Rfc5869.ExpandPrefix | docs/demo-crypto.js:120-128 | a shorter output is a prefix of a longer one |
| Rfc5869.MissingSaltIsEmptyKey | docs/demo-crypto.js:118 | a missing salt, 32 zero octets and the empty key are the same under HMAC's zero padding |
| Base32Codecs.TakeIn | android/app/src/main/java/io/caleidoscode/doublethink/crypto/Base32.kt:20-21 | shifting bits into the overflowing 32-bit word keeps its low bits right |
| Base32Codecs.GiveOut | android/app/src/main/java/io/caleidoscode/doublethink/crypto/Base32.kt:22-25 | a digit read off the top of the low bits loses nothing |
| Base32Codecs.AndroidEncode | android/app/src/main/java/io/caleidoscode/doublethink/crypto/Base32.kt:15-31 | the app's encoder writes the encoding of section 6 of RFC 4648 without padding |
| Base32Codecs.BrowserEncode | docs/demo-crypto.js:141-147 | and so does the browser's, so they agree on every input |
| Base32Codecs.AndroidDecode | android/app/src/main/java/io/caleidoscode/doublethink/crypto/Base32.kt:37-53 | the app's decoder, which fails on the first foreign character |
| Base32Codecs.BrowserDecode | docs/demo-crypto.js:148-155 | the browser's decoder, which passes foreign characters over |
| Base32Codecs.RoundTrip | android/app/src/main/java/io/caleidoscode/doublethink/crypto/Base32.kt:15-53 | for bytes of any length both decoders return them from any text that upper-cases to either encoder's output, with blanks around and any number of pads after |
| Base32Codecs.EitherCaseRoundTrip | android/app/src/main/java/io/caleidoscode/doublethink/crypto/Base32.kt:35-52 | an encoding with any of its letters in lower case, blanks around and padding after decodes to the bytes in both decoders |
| Base32Codecs.Agreement | docs/demo-crypto.js:148-155 | whatever the app decodes the browser decodes to the same bytes |
| Base32Codecs.AppRefusesExactlyForeign | android/app/src/main/java/io/caleidoscode/doublethink/crypto/Base32.kt:43-44 | the app refuses a text if and only if a foreign character is left in it after trimming, and names one |
| Base32Codecs.EncodedLength | docs/demo-crypto.js:141-147 | the encoding of n octets has ceil(8n/5) symbols |
| Base32Text.SameSymbols | docs/demo-crypto.js:149 | both decoders see the same symbols in any text |
| Rfc4648.SymbolTable | docs/demo-crypto.js:140 | the digits' symbols are the alphabet |
| Rfc4648.DecodedEncoded | docs/demo-crypto.js:141-155 | decoding the encoded digits gives the octets back, for any number of them |
| TokenBucketSpec.TokensConserved | internal/limits/limits.go:68-86 | tokens granted, left and spilled are exactly those there were plus the refill of the clock's advance, for times in any order; tokens stay in [0, capacity] |
| TokenBucketSpec.WindowBound | internal/limits/limits.go:68-86 | any consecutive calls are granted at most the capacity plus the refill of the growth of `last` over them |
| TokenBucketSpec.TimeBound | internal/limits/limits.go:68-86 | calls whose times all lie between t1 and t2 are granted at most the capacity plus the refill of t2 - t1, however long the bucket was idle |
| TokenBucketSpec.SimultaneousExactly | internal/limits/limits.go:68-86 | of n calls at one time as many are granted as there are whole tokens: n, or the floor of the smaller of the capacity and the tokens plus the refill |
| TokenBucketSpec.RestedHasItsBurst | internal/limits/limits.go:74-78 | a bucket left alone for capacity over rate grants its whole burst at once |
| TokenBucketSpec.SpillsOnlyWhenFull | internal/limits/limits.go:76-78 | refill is lost only at a full bucket |
| TokenBucketSpec.DeniedThenGranted | internal/limits/limits.go:80-85 | a denied key is granted at or beyond `last` + 1/rate, and earlier if and only if the refill makes up a token |
| TokenBucketSpec.GrantedAgainIff | internal/limits/limits.go:74-85 | a denied key is ever granted again if and only if its bucket can hold a token |
| TokenBucketSpec.KeysAreIndependent | internal/limits/limits.go:119-129 | what a key is granted depends on its own calls alone |
| TokenBucketSpec.LimiterBound | internal/limits/limits.go:119-129 | the bound for a key in any stretch of any run of a limiter shared with other keys |
| TokenBucketSpec.FirstWindowBound | internal/limits/limits.go:123-127 | likewise when the key's first call falls in the stretch |
| TokenBucketSpec.LimiterTimeBound | internal/limits/limits.go:119-129 | the bound by the wall clock for a key in any stretch of any run of a limiter, the key being new or not |
| TokenBucketSpec.NewKeyHasItsBurst | internal/limits/limits.go:119-129 | a new key is granted its whole burst at once |
| TokenBucketSpec.SurvivorIsCreditedTwice | internal/limits/limits.go:133-147 | a bucket that survives the clean-up is credited the same time twice, exactly if that time brings any tokens |
| TokenBucketObjects.TokenBucket.Allow | internal/limits/limits.go:68-86 | the in-place update is the specification's call |
| TokenBucketObjects.RateLimiter.Allow | internal/limits/limits.go:119-129 | a missing bucket is made full, and the limiter takes the specification's step |
| TokenBucketObjects.ConnCounter.Acquire | internal/limits/limits.go:163-171 | a connection is granted exactly below the cap, counted, and no other key changes |
| TokenBucketObjects.ConnCounter.Release | internal/limits/limits.go:174-183 | a release undoes one acquire, and keys without connections are not kept |
| Grants.MatchersAgree | internal/store/grant.go:122-130 | the Lua and the Go matcher agree on all strings |
| Grants.NamespaceReaches | internal/store/grant.go:72-78 | a namespace ticket reaches exactly the ids under its slash |
| Grants.RightInEveryRun | internal/store/grant.go:40-92 | every issued ticket is in exactly one of outstanding, expired and used; a used one made exactly one channel, which it matches and whose policy it set; an account's counter is the number of its self-made channels, within the cap |
| Grants.StoredAsAsked | internal/store/grant.go:68-92 | in every run each stored channel is as it was asked for: one made by a ticket has the policy its ticket was issued with and the owner and key of the redemption, one made by self-service those of its request, and only an override ever changes its limits |
| Grants.CreateDoneIff | internal/store/methods.go:42-56 | self-service succeeds exactly for a new id whose account, if any, is below its cap, no cap being 2^30 |
| Grants.RedeemDoneIff | internal/store/grant.go:68-81 | a ticket is redeemed exactly if it is outstanding, applies to the id, and the id is new |
| Grants.NothingMadeChanges | internal/store/methods.go:42-56 | channels are never dropped and their owner and key never change; used and expired tickets stay so |
| Grants.NoReplay | internal/store/grant.go:99-118 | a used or expired ticket never succeeds again |
| Grants.ChannelStore.CreateChannel | internal/store/methods.go:60-83 | the capped creation; a failure changes nothing |
| Grants.ChannelStore.CreateChannelWithTicket | internal/store/grant.go:99-118 | the redemption, with the ticket's policy; a failure changes nothing |
| Eviction.OverrideSetsEach | internal/store/methods.go:114-132 | each limit is replaced on its own by any number that is not negative |
| Grants.ChannelStore.SetChannelLimits | internal/store/methods.go:114-132 | overrides the limits that are not negative and nothing else |
| Grants.ChannelStore.AllChannelKAuth | internal/store/methods.go:136-149 | the loop collects every channel's key |
| Registry.AlwaysAgree | internal/transport/transport.go:344-502 | in every run of requests and restarts every registered id is stored, and every stored decodable key is registered |
| Registry.KeyedChannelsAreGuarded | internal/transport/transport.go:971-983 | the open path refuses every channel stored with a key, in every reachable state |
| Registry.AdmittedByCreationKey | internal/auth/auth.go:110-130 | a channel made with a key admits, after whatever follows and any restarts, exactly the keyed function of the challenge under the key its creation text decodes to |
| Registry.PrivateForGood | internal/transport/transport.go:971-983 | a keyed channel stays refused to the open path and admits exactly the same responses after anything that follows, restarts included |
| Registry.RestartLoadsPart | cmd/doublethink/serve.go:44-55 | what a restart loads is part of the live registry, and all of it if and only if no registered id is stored keyless |
| Registry.KeyedOverKeylessIsForgotten | internal/transport/transport.go:487-502 | a keyed ephemeral create over a keyless stored topic registers a name that a restart forgets |
| RegistryObjects.AuthRegistry.Register | internal/auth/auth.go:69-82 | registers exactly new, non-empty names |
| RegistryObjects.AuthRegistry.Verify | internal/auth/auth.go:110-130 | admits exactly a registered channel with the keyed function of the challenge as response |
| RegistryObjects.AuthRegistry.Load | internal/auth/auth.go:154-163 | the registry becomes the decodable part of the snapshot |
| Registry.AloneRegisters | internal/transport/transport.go:489-501 | on an instance without a store a request registers exactly if it is answered with success, and then one new name under its key |
| Registry.AnswersMean | internal/transport/transport.go:344-502 | when each answer is given, and only when: rate limited, malformed, bad ticket, name taken, no room, success |
| Registry.OkStores | internal/transport/transport.go:386-502 | what a successful request stores, field by field, and registers |
| Registry.NotOkChangesNothing | internal/transport/transport.go:344-502 | a request without success changes nothing, but that an ephemeral create may store a name that only the registry knew |
| Registry.RetainedTtlIs | internal/transport/transport.go:438-451 | the TTL is what was asked for or the default, and never more than the longest allowed |
| RegistryObjects.TransportServer.HandleCreateChannel | internal/transport/transport.go:344-502 | the handler's branches, with the create limiter's answer and with or without a store, are the request machine's step and status |
| RegistryObjects.TransportServer.Restart | cmd/doublethink/serve.go:44-55 | a restart is the machine's |
| RegistryObjects.TransportServer.GuardPublicTopic | internal/transport/transport.go:971-983 | allows exactly non-empty unregistered names |
| DedupWindow.WindowIsTheLast | android/app/src/main/java/io/caleidoscode/doublethink/service/ConnectionManager.kt:76-84 | the remembered ids are always exactly the last 2000 let through |
| DedupWindow.RepeatsAreDropped | android/app/src/main/java/io/caleidoscode/doublethink/service/ConnectionManager.kt:75-84 | up to 2000 different ids, every repeat is dropped and nothing else |
| DedupWindow.LetThroughIff | android/app/src/main/java/io/caleidoscode/doublethink/service/ConnectionManager.kt:76-84 | an id is let through if and only if it is not among the last 2000 let through |
| DedupWindow.SeenIds.FirstSeen | android/app/src/main/java/io/caleidoscode/doublethink/service/ConnectionManager.kt:76-84 | the insertion-ordered set's update is the window's step |

## Left out

- StoreObject.RetainedStore.PruneExpired: sweeps alone; interleaved sweeps are the steps of `StoreMachine`, whose states are values and not objects.
- BrokerObject.Broker.Publish: carries out its closings before it returns; closings that interleave with other calls are steps of `BrokerMachine`.
- KeyDerivation.BrowserExpand: past 255 blocks, which RFC 5869 forbids, the counter octet starts over, as in the code.
- Redis: every script and command is taken as atomic, key strings of different kinds as different, and failing commands, persistence and crashes are not modelled; nor are numbers beyond 2^53 in Lua.
- The catch-up cursor is a natural number; negative cursors read everything, as zero does.
- The clean-up of a failed `CreateChannel` is not modelled, because the code has none; interleavings inside one create request are not modelled, each request is one step.
- Clock readings come with the steps in any order; `AppendsAdvance` and `ReadsNoneBelowZero` name what a theorem needs of them.
- Live frames are re-encodings of the stored bytes; the model gives a message one body in both places.
- WebSocket, SSE and HTTP plumbing, timeouts, JSON, CORS, rate-limit checks before requests other than create, logging, CLI commands, the admin and account keys, and statistics.
- secretbox, sealed boxes, Curve25519, Go's base32 and HKDF, and Bouncy Castle are not part of this model; key decoding and the challenge function are parameters.
- Keyed BLAKE2b and digest lengths other than 32, which nothing uses.
- Token buckets are over real numbers: floating-point rounding and the saturation of very long durations are not modelled, nor is a zero time other than as "never".
- `IssueGrant` sets a ticket and its expiry in one step, and ticket ids are fresh.
- TTL arithmetic in the create handler is on unbounded integers; a `ttl_sec` large enough to overflow a duration is not modelled.
- The runtimes' upper-casing and blank tables are parameters with what is known of every such table (`Sound`), the same for both runtimes; texts are sequences of code points, where Kotlin's loop sees a code point past U+FFFF as two foreign characters.
- The runs of the request machine are those of an instance with a store.
- `Registry.Remove`, which no handler calls, in the request machine.
- Account creation, `ChannelUsage`, `SubscriberCount`, `Snapshot`, `BackoffPolicy`, the connection stages and session roles: true but shallow.
- The rest of the Android app and of the page: interface, notifications, storage.
