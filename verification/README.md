# SimpleAdmin: verified models of the device server and the installer

SimpleAdmin is an administration server that runs on a 5G modem, with a Windows installer. Most of it is
plumbing; some of it decides what is sent to a modem, what is deleted from an inbox, and what a user is told.
This project models those parts and proves what they promise.

| area | files | main results |
|---|---|---|
| SMS codec | `Septets`, `SeptetNumber`, `Greedy`, `Sms`, `SmsRoundTrip`, `Decimal`, `Utf8` | `MessageRoundTrip`, `MessageWithSpaceIsLost`, `SegmentationIsMinimal`, `UserDataFits`, `PackedIsNumber` |
| SMS octets | `SmsWire`, `SmsFields` | `SubmitIsAddressed`, `HeaderIsRead`, `PlaceIsDelivered`, `CutMessageIsRefused` |
| Inbox | `Inbox`, `Fragments`, `Sorting`, `SmsList`, `SmsListProps`, `MessageFacts` | `SplitPartitions`, `ListConservesIndices`, `SentMessageIsListed`, `PlainEntriesAreRuns` |
| Forwarding | `Detector`, `DetectorRun`, `Forwarding`, `Ledger`, `ForwardingRun`, `ForwardingInbox` | `PublishedAtMostOnce`, `PublishedInOrder`, `ReceiptsAreEarned`, `ScannedReceiptsAreEarned`, `RepublishingNeedsReturn` |
| Forwarding queue | `ForwardingChoice`, `ForwardingQueue` | `OnlyChosenChannels`, `NoticesStrayExactly`, `EnqueueIsExact`, `TakeIsExact`, `DeliveriesArePaced` |
| Delayed deletion | `Cleanup`, `CleanupRun`, `CleanupOrigin`, `CleanupProgress` | `EveryDeletionIsJustified`, `EveryDeletionWasScheduled`, `TakesOnWhatIsDue`, `DeletesWhatIsListed` |
| Telemetry | `Ring`, `Timeline`, `Telemetry`, `Monitor`, `MonitorRun`, `ResponseContents` | `EveryPollIsExact`, `CreditsTelescope`, `DifferenceIsFresh`, `StatisticsAreOfWindow` |
| Frequency lock | `FreqLock`, `FreqLockRun`, `FreqLockPatience`, `FreqLockCalls`, `FreqText`, `Text` | `EveryRevertIsClean`, `OnlyUnservedLocksAreTakenBack`, `NothingAfterReplaced`, `LockIsSavedAndGuarded`, `ReportIsRead` |
| Cell lock | `CellRules`, `CellCommands`, `CellLock`, `CellLockRun`, `CellLockTime` | `FallbackMeansUnlocked`, `GivenUpOnlyUnconnected`, `LockedFallbackHasUnkept`, `SavedLockComesBack`, `LteLockExactly` |
| AT port, cache and log | `AtPort`, `AtLines`, `AtCache`, `AtLog`, `AtLogTimes` | `ScanIsRescan`, `ReplyIsFirstComplete`, `TrimDropsOldest`, `EveryIdIsInOnePlace`, `EveryCommandIsTimed` |
| Events, watchdog | `Events`, `Watchdog` | `OutagesAreMeasured`, `OutageIsTold`, `RestartsAreLimited` |
| Installer payload | `Payload` | `PayloadRoundTrip`, `PayloadLayout`, `PrefixIsRejected` |

`Common`, `Store` and `Modem` hold the shared vocabulary. Code that changes fields step by step is a class whose
methods are proved equal to a step of a state machine; code that loops is a method with its loop, proved against
a specification function; everything that is said about whole runs is a lemma about those functions. What such a function computes is also
said without naming it, by positions in octets and lists, by fields and by times, mostly in files of their own.
`dafny verify dfyconfig.toml` checks all of it.

## Where the code does less than one might expect

Each of these is proved, with the exact condition or a failing run:

- The table at src/sms.rs:186 has a second space at position 27, the escape position, before the one at 32. So
  every space goes out as the escape septet, and a message in GSM 7-bit comes back if and only if it holds none
  (`MessageWithSpaceIsLost`): "a b" is read as "a " (`SpaceTakesNextLetter`). Messages in UTF-16 always come back.
  For any other table the condition is that no character is sent as the escape (`MessageRoundTrip`).
- A message published again while its first jobs are outstanding can earn a deletion receipt that one of its
  channels never earned (`RepublishedIsNotEarned`). It takes a message that leaves the inbox while it is
  outstanding and returns within the retry window (`RepublishingNeedsReturn`), which can happen
  (`MessageCanReturn`). Otherwise every receipt is earned (`ScannedReceiptsAreEarned`).
- An outage notice that is being sent when its channel is withdrawn goes on, and is queued again if it is refused
  (`NoticesStrayExactly`, an if-and-only-if).
- A frequency lock whose answer is lost starts no new generation, even if the modem took it. A guard at work may
  then report "reverted" while the modem is locked (`LostAnswerHidesALock`).
- A cell lock that the modem takes, that cannot be saved, and whose removal the modem does not acknowledge leaves
  the modem locked if the phase was "fallback", which stays (`FallbackIsLeftLockedExactly`, `FallbackCanBeLocked`).
  That is the only way to be locked in "fallback" over every run (`LockedFallbackHasUnkept`).
- A frequency-lock file that exists but cannot be read passes for an absent one, so what it holds may outlive a
  guard that ended in "reverted" until the next write (the exception in `EveryRevertIsClean`).
- While the AT port waits for a prompt, a line that contains "ERROR" and is not itself a final line goes unnoticed
  when it comes after a finished "OK" line (`PromptScanDisagreesExactly`, `PromptScanCanDisagree`). Waiting for a
  reply is exact.
- An outage looks shorter than it was exactly when the wall clock shows less than the time that passed
  (`OutagesAreMeasured`).
- Expiry from the front of the AT log misses a command exactly when it stands behind a fresh one
  (`FrontExpiryIsExact`), which takes finish stamps that go back.
- If the restart count cannot be written, the watchdog's limit does not hold (`UnwrittenCountsAreNoLimit`).

## Model

| member | source | states |
|---|---|---|
| Septets.Packed | src/sms.rs:160-164 | header and packed septets take exactly the octets that the septet count, fill bits included, needs |
| Septets.PackedKeepsHeader | src/sms.rs:160-169 | packing never alters an octet of the concatenation header |
| Septets.UnpackedPacked | src/sms.rs:160-169 | reading at the skipped position gives back exactly the septets that were packed behind the header |
| Septets.UnpackedLength | src/sms.rs:206-241 | reading stops at the announced count or at the first septet that is no longer complete, not before |
| Septets.Pack | src/sms.rs:160-170 | the bit loop over zeroed octets computes the packed form and its user data length |
| Sms.DecodeGsm7 | src/sms.rs:206-241 | the decoding loop with its escape flag and early exit yields the decoded septets |
| Sms.Segment | src/sms.rs:118-136 | the loop cuts greedily at the limit, and each segment is the encoding of whole characters |
| Sms.Segments | src/sms.rs:101-136 | the coding and the limit that the message calls for decide its segments |
| Sms.WritePart | src/sms.rs:149-184 | one PDU with its header, length and user data |
| Sms.WriteParts | src/sms.rs:148-184 | one PDU per segment, numbered from 1, all with the same total |
| Sms.Submit | src/sms.rs:96-185 | the whole of `submit`, with its two errors |
| Sms.ScanHeader | src/sms.rs:308-330 | the loop over header elements finds the last concatenation element, or fails on a truncated one |
| SmsRoundTrip.DecodeEncode | src/sms.rs:187-241 | text of the alphabet of which no character is sent as the escape is decoded to itself |
| SmsRoundTrip.DecodesToItself | src/sms.rs:187-241 | for every table: text of the alphabet is decoded to itself if and only if no character of it is sent as the escape |
| SmsRoundTrip.Utf16RoundTrip | src/sms.rs:126-128 | UTF-16 units, surrogate pairs included, decode to the text |
| SmsRoundTrip.SegmentFits | src/sms.rs:112-136 | segments concatenate to the message, none is empty, none exceeds 160/153 septets or 70/67 units |
| SmsRoundTrip.SingleSegment | src/sms.rs:112-133 | one segment exactly when a non-empty message fits 160 septets or 70 units |
| SmsRoundTrip.SegmentationIsMinimal | src/sms.rs:118-136 | no split within the limit that cuts no character has fewer segments |
| Greedy.NeverBehind | src/sms.rs:120-133 | the exchange argument: a greedy run is never behind any rival split |
| SmsRoundTrip.UserDataFits | src/sms.rs:155-176 | every part's user data fits 140 octets, with a length field of at most 160 |
| SmsRoundTrip.ReadBack | src/sms.rs:306-347 | the receiver finds the header, its place in the message, and the text of every part |
| SmsRoundTrip.PduFields | src/sms.rs:171-182 | the fields a network reads from a submitted PDU are the ones that were written |
| SmsRoundTrip.PartArrives | src/sms.rs:274-355 | every part, relayed as a delivery with any service centre, sender and date, decodes to its text and place |
| SmsRoundTrip.MessageRoundTrip | src/sms.rs:96-355 | for every table of 128 entries: the texts of all parts in order are the message if and only if it went out in UTF-16 or no character of it was sent as the escape |
| SmsRoundTrip.SpaceIsLost | src/sms.rs:186-190 | the character that the code's table sends as the escape is the space, and no other |
| SmsRoundTrip.MessageWithSpaceIsLost | src/sms.rs:96-355 | with the table of the code, a message comes back if and only if it does not go out in GSM 7-bit with a space in it |
| SmsRoundTrip.SpaceTakesNextLetter | src/sms.rs:186-241 | "a b" is read as "a " |
| SmsRoundTrip.AddressRoundTrip | src/sms.rs:242-259 | a number written in semi-octets reads back as its digits, with its plus sign |
| SmsWire.DigitsAreThose | src/parser.rs:32-34 | the digits of a number are its characters from '0' to '9', in order |
| SmsWire.SubmitIsAddressed | src/sms.rs:137-182 | every part of every message goes to the number that was given, digit by digit in its half-octets, with its type of number and sequence, and is read back as that number |
| SmsWire.PartsAreNumbered | src/sms.rs:150-153 | each part of several begins with 05 00 03, the reference, the number of parts and its own |
| SmsWire.HeaderIsRead | src/sms.rs:308-330 | every header is elements and a remainder; it is read exactly if no element is cut short, as what its last 8-bit or 16-bit concatenation element says, octet by octet |
| SmsWire.PlaceIsDelivered | src/sms.rs:274-355 | a delivered part with any header, with an 8-bit or a 16-bit reference, carries exactly that total and sequence |
| SmsWire.CutHeaderIsRefused | src/sms.rs:306-317 | a header that is cut short makes the message unreadable |
| SeptetNumber.PackedIsNumber | src/sms.rs:155-163 | packed octets are, to the base 256, the number that the septets are to the base 128, shifted behind the header |
| SmsFields.SurrogatesMakeCharacter | src/sms.rs:126-128 | UTF-16 units are the character, or ten bits each above 0x10000 |
| SmsFields.HighOctetFirst | src/sms.rs:166-168 | units are sent with the high octet first |
| SmsFields.FirstAreInPlace | src/sms.rs:186 | the first 32 positions of the default alphabet |
| SmsFields.NationalIsInPlace | src/sms.rs:186 | the national characters of the default alphabet |
| SmsFields.AsciiIsSent | src/sms.rs:186-190 | letters, digits and most other ASCII characters are sent as their code |
| SmsFields.EscapedIsSent | src/sms.rs:191-205 | a character outside the table is sent as 27 and its place in the extension table, or not at all |
| SmsFields.EscapedIsRead | src/sms.rs:219-232 | an escaped septet is read as its character of the extension table, or a space |
| SmsFields.HexIsRead | src/sms.rs:342 | 8-bit data is shown as two hexadecimal digits an octet |
| SmsFields.TimeIsShown | src/sms.rs:260-273 | a time in semi-octets is shown digit by digit, with the sign of its time zone |
| SmsFields.NumberIsRead | src/sms.rs:242-259 | a number is read as the digits its half-octets spell, with a plus sign exactly if it is international |
| SmsFields.NameIsRead | src/sms.rs:242-245 | an alphanumeric sender of n septets is read in full and no further |
| SmsFields.PlainIsDelivered | src/sms.rs:274-355 | a delivered message without a header: sender, service centre, date, and the text by its coding |
| SmsFields.CutMessageIsRefused | src/sms.rs:274-306 | a delivered message is read whatever follows it, and not at all if its end is missing |
| SmsFields.OtherTypesAreRefused | src/sms.rs:289-292 | a PDU of another type of message is refused |
| SmsFields.CodingExactly | src/sms.rs:102-111 | a message goes out in GSM 7-bit exactly if each of its characters is in the alphabet or its extension table |
| SmsFields.SubmitExactly | src/sms.rs:96-136 | a message is submitted exactly if its number has 1 to 20 digits and it takes 1 to 255 parts |
| Fragments.SplitFragments | src/forwarding.rs:410-441 | the nested search loops compute the grouping |
| Fragments.SplitPartitions | src/forwarding.rs:410-441 | the groups are a partition of the fragments, each with one total and no sequence number twice |
| Fragments.OneMessageOneGroup | src/forwarding.rs:424-439 | fragments of one message dated within five minutes end up in one group |
| MessageFacts.FirstGroupTakesFragment | src/forwarding.rs:424-439 | a fragment goes to the first group that it continues, and opens one only if it continues none |
| MessageFacts.FragmentOrder | src/forwarding.rs:411-415 | fragments are looked at by date, and with the same date by index |
| SmsList.MergeGroups | src/sms.rs:545-547 | the groups of one key become messages, in their order |
| SmsList.List | src/sms.rs:529-561 | the listing loop over the inbox, with its open run of plain entries |
| SmsListProps.RegroupConserves | src/sms.rs:538-561 | what has come out, what is open and what is still to come add up for every index at every step |
| SmsListProps.ListConservesIndices | src/sms.rs:529-561 | every inbox index appears in the listed messages exactly as often as in the inbox |
| SmsListProps.PartsAreOneMessage | src/sms.rs:419-440 | parts of one message, in any order, merge into one with their texts in order |
| SmsListProps.PlainIsListed | src/sms.rs:549-561 | an entry from a PDU without a concatenation header is listed as a message of its own |
| MessageFacts.PlainEntriesAreRuns | src/sms.rs:442-466 | text-mode entries are listed as their longest runs of one sender, next indices, and times within five seconds |
| MessageFacts.NewKeyBringsMessages | src/sms.rs:538-551 | the first entry with a key ends the run before it and brings out all messages under its key |
| MessageFacts.TakenKeyIsPassedOver | src/sms.rs:538-561 | further entries with that key are passed over and end no run |
| MessageFacts.MergedMessageIs | src/sms.rs:413-441 | a merged message has its texts in part order, its indices ascending, sender and date of the first entry |
| SmsListProps.SentMessageIsListed | src/sms.rs:468-573 | from `submit` over the network to the page, for one part or several: one message with the indices of its parts, and the sent text if and only if the codec kept it |
| Detector.Detector.Collect | src/forwarding.rs:358-406 | the loop over groups remembers complete ones and collects those to publish |
| Detector.Detector.GroupByKey | src/forwarding.rs:345-357 | the map holds the fragments of each key in order |
| Detector.Detector.Messages | src/forwarding.rs:359 | the groups to look at, for whatever order the map yields its keys |
| Detector.Detector.Scan | src/forwarding.rs:332-408 | one scan: its notifications and the new state, or an error that changes nothing |
| DetectorRun.PublishedAtMostOnce | src/forwarding.rs:332-408 | over every run of scans and resets, a fragment that stays in the inbox is in at most one notification, and in none if the first scan held it |
| DetectorRun.SeenIsPresent | src/forwarding.rs:336-344 | after a scan, only identities of the listing are remembered |
| DetectorRun.NewIsPublished | src/forwarding.rs:359-405 | a complete new message is published unless one of its identities is remembered or shared with an earlier one |
| DetectorRun.SequencesCount | src/forwarding.rs:363-374 | as many different numbers as fragments means that all are numbered and different |
| DetectorRun.PublishedInOrder | src/forwarding.rs:363-383 | a multipart notification is the texts of parts 1 to total, each once, in order |
| MessageFacts.NotificationIsOfGroup | src/forwarding.rs:381-404 | sender, date and identity are those of the first part, and the parts name exactly the entries that have an index |
| MessageFacts.CompleteExactly | src/forwarding.rs:363-374 | a message is complete exactly if it has one part, or up to 255 and each of them once |
| MessageFacts.PublishableExactly | src/forwarding.rs:383-387 | it is published only with a sender and a text of at most 64 KiB |
| MessageFacts.GroupIsRelated | src/forwarding.rs:345-359 | a notification is of entries from one storage and sender with one reference |
| MessageFacts.ScanIsExact | src/forwarding.rs:359-406 | a scan publishes exactly the complete messages of which nothing is remembered or shared with an earlier one, and remembers exactly what it knew and the complete ones |
| MessageFacts.LargeListingIsRefused | src/forwarding.rs:332-344 | a listing of more than 4096 entries is refused, and the first scan only sets a mark |
| Forwarding.ChunksAreTight | src/forwarding.rs:1160-1171 | chunks lose nothing, fit the byte limit, and no split that cuts no character has fewer |
| Utf8.SizeIsLeast | src/forwarding.rs:1160-1171 | a character takes as many bytes as its bits need in UTF-8 |
| Forwarding.Chunk | src/forwarding.rs:1160-1171 | the loop over byte offsets computes the chunks |
| Forwarding.Forwarder.Enqueue | src/forwarding.rs:746-784 | the queue, the number of jobs and the capacity failures after fanning out to the channels |
| Forwarding.Forwarder.PublishAll | src/forwarding.rs:704-712 | every message of a scan is queued and gets an outcome if it has jobs |
| Forwarding.Forwarder.NotifyOutage | src/forwarding.rs:787-813 | an outage notice is queued when switched on, long enough and not inverted |
| Forwarding.Forwarder.Completed | src/forwarding.rs:971-986 | the outcome counts down, and its last job yields a receipt or none |
| Forwarding.Forwarder.TakeNext | src/forwarding.rs:816-845 | expired jobs fail, then the first job that may go is taken with the generation |
| Forwarding.Forwarder.Deliver | src/forwarding.rs:878-919 | the result of a delivery: next chunk, completion, retry or failure, or nothing after a reset |
| Forwarding.Forwarder.Save | src/forwarding.rs:582-621 | what a change of settings does by its write and what was stored: queue, outcomes and generation reset, or outage notices dropped, or nothing; and whether the caller resets the detector and cancels receipts |
| Ledger.NoteEnters | src/forwarding.rs:704-712 | a message that is not outstanding opens its account with exactly the jobs just queued |
| Ledger.JobAdvances | src/forwarding.rs:883-899 | an acknowledged chunk moves the job on without disturbing any account |
| Ledger.JobLeaves | src/forwarding.rs:971-986 | a finished job leaves every account in order |
| Ledger.LastJobEarns | src/forwarding.rs:975-982 | the last successful job of a message that never failed proves that all its channels were served |
| ForwardingRun.ReceiptsAreEarned | src/forwarding.rs:746-986 | over every run that publishes no outstanding message, each receipt is for a message whose every channel acknowledged all chunks in order, and pending counts equal jobs queued or in flight |
| ForwardingRun.RepublishedIsNotEarned | src/forwarding.rs:704-712 | a run in which a message published twice earns a receipt one of its channels did not |
| ForwardingInbox.OutstandingExactlyIfAway | src/forwarding.rs:332-408 | a message that a listing publishes is outstanding if and only if it was missing from a listing while it was outstanding |
| ForwardingInbox.ScannedReceiptsAreEarned | src/forwarding.rs:332-986 | over every run of listings, deliveries and settings in which no outstanding message returns, each receipt was earned |
| ForwardingInbox.RepublishingNeedsReturn | src/forwarding.rs:332-408 | over every run, publishing an outstanding message takes one that left the inbox while it was outstanding, is back, and has a job within the retry window |
| ForwardingInbox.MessageCanReturn | src/forwarding.rs:332-408 | such a run: a message is published, missing from one listing, and back while its jobs are outstanding |
| ForwardingChoice.OnlyChosenChannels | src/forwarding.rs:746-784 | over every run, what is queued or in flight is for a channel that is switched on and listed, and a receipt's message had to go to exactly the channels that the settings it was published under chose |
| ForwardingChoice.NoticesStrayExactly | src/forwarding.rs:600-612 | a step takes an outage notice off its list exactly if it withdraws the channel of one that is being sent |
| ForwardingChoice.OnlyChosenNotices | src/forwarding.rs:787-813 | over every run without such a step, outage notices are for the channels that outage notices go to |
| ForwardingQueue.EnqueueIsExact | src/forwarding.rs:746-784 | a note is queued on the chosen channels, in order, as long as there are fewer than 64 jobs and at most 256 KiB, and a failure is told exactly if one is left out |
| ForwardingQueue.TakeIsExact | src/forwarding.rs:816-845 | exactly the jobs past three minutes are dropped, and the first of the others that may go is taken |
| ForwardingQueue.NextTurn | src/forwarding.rs:884-919 | what becomes of a job after a chunk or a refusal, and when it may go again |
| ForwardingQueue.BackoffDoubles | src/forwarding.rs:911-915 | the pause doubles with each attempt from five seconds, up to a minute |
| ForwardingQueue.DeliveriesArePaced | src/forwarding.rs:837-845 | over every run without new settings, at least four seconds pass between two deliveries on a channel |
| ForwardingQueue.OutageIsToldExactly | src/forwarding.rs:787-813 | with room and a channel for it, an outage is told exactly if it is to be and lasted long enough |
| ForwardingQueue.NewSettingsTakeEffect | src/forwarding.rs:582-621 | what settings that are written do to queue, counts and pauses, by which of them changed |
| ForwardingQueue.OldDeliveryIsDropped | src/forwarding.rs:878-882 | a delivery from before a reset ends without effect |
| Cleanup.Cleanup.constructor | src/cleanup.rs:43-82 | a new process reads its receipts back and starts every age over; a file that is too large, unreadable or invalid counts as none |
| Cleanup.Cleanup.AddReceipt | src/cleanup.rs:87-102 | a receipt is added within capacity and once per id |
| Cleanup.Cleanup.CancelAll | src/cleanup.rs:103-110 | cancelling empties receipts and ages |
| Cleanup.Cleanup.BeginFlush | src/cleanup.rs:111-121 | the snapshot that is written, with its generation |
| Cleanup.Cleanup.EndFlush | src/cleanup.rs:122-131 | only a clean write moves the saved generation, and to the snapshot's |
| Cleanup.Cleanup.CheckClock | src/cleanup.rs:135-156 | a wall clock that is unusable or was stepped makes every age start over |
| Cleanup.Cleanup.SelectDue | src/cleanup.rs:160-169 | the receipts that are a day old on both clocks |
| Cleanup.Cleanup.BeginDeletion | src/cleanup.rs:132-173 | nothing is due while a change is not saved |
| Cleanup.Cleanup.DeleteReceipt | src/cleanup.rs:179-218 | a receipt goes when nothing of it remains, and is kept with what remains otherwise |
| Cleanup.SweepParts | src/cleanup.rs:183-203 | the loop over the parts of a receipt |
| CleanupRun.SweepStopsAtRefusal | src/cleanup.rs:183-203 | the commands are the listed parts up to the first refusal, what remains is the listed parts from there on |
| CleanupRun.SettleKeepsSound | src/cleanup.rs:205-214 | settling a receipt keeps capacity, one age per receipt, and the receipts still to do |
| CleanupRun.StepKeepsInv | src/cleanup.rs:87-220 | every step keeps capacity, distinct ids, ages that agree, and what "saved" means |
| CleanupRun.EveryDeletionIsJustified | src/cleanup.rs:132-220 | over every run with restarts, each deletion is for a listed part of a receipt on disk, aged a day on both clocks without a clock step |
| CleanupOrigin.EveryDeletionWasScheduled | src/cleanup.rs:87-220 | over every run with restarts, each deleted part belongs to a receipt that was scheduled or on disk at the start |
| CleanupProgress.TakesOnWhatIsDue | src/cleanup.rs:132-173 | over every run, a deletion run takes on exactly the receipts that are a day old on both clocks with no clock step in that day, and none while a change is unsaved |
| CleanupProgress.DeletesWhatIsListed | src/cleanup.rs:176-218 | over every run, exactly the listed parts up to the first failure are sent a command; the receipt goes when none remain, and the others stay |
| CleanupProgress.TakenInExactly | src/cleanup.rs:87-102 | a receipt is taken in exactly if it names parts, is new, and is within 64 receipts and 512 parts |
| CleanupProgress.WriteIsComplete | src/cleanup.rs:111-131 | a write puts all receipts on disk and leaves nothing to write |
| CleanupProgress.CancelIsComplete | src/cleanup.rs:103-110 | after cancelling nothing is taken on, and the next write leaves none on disk |
| CleanupProgress.StartReadsFile | src/cleanup.rs:43-82 | a start reads the file exactly if it is readable and within the limits |
| Ring.AddHeld | src/telemetry.rs:155-162 | writing one slot appends a value and drops the oldest of a full ring |
| Ring.Buffer.Add | src/telemetry.rs:155-159 | the ring's contents after an addition |
| Ring.Buffer.Iter | src/telemetry.rs:160-162 | iteration yields the contents, oldest first |
| Ring.Buffer.Last | src/telemetry.rs:163-169 | the last value, or none when empty |
| Ring.Buffer.Clear | src/telemetry.rs:561-562 | a reset empties the ring |
| Ring.AddedKeepsLast | src/telemetry.rs:142-170 | whatever was added, the ring holds exactly the last N values in order |
| Monitor.Monitor.RecordPing | src/telemetry.rs:487-505 | a probe is recorded with its jitter unless the target changed while it ran |
| Monitor.Monitor.SetTarget | src/telemetry.rs:556-566 | a new target that was written starts a new generation with an empty probe ring; the same target, or one that was not written, changes nothing |
| Monitor.Monitor.Points | src/telemetry.rs:616-651 | one pass yields the points after the cursor and the statistics of the whole window |
| Monitor.Monitor.Newest | src/telemetry.rs:603-607 | the cursor is the newest time in each ring |
| Monitor.Monitor.Sum | src/telemetry.rs:670-678 | the bytes of the traffic points that began within the window |
| Monitor.Monitor.SnapshotSince | src/telemetry.rs:599-686 | the response to a cursor, or the full response when the cursor does not fit: points, statistics and byte totals |
| Timeline.Merge | development/simpleadmin/www/js/monitor.js:80-84 | the page's map, filter, sort and slice compute the merge, repeated times of either list collapsed |
| Timeline.MergedRising | development/simpleadmin/www/js/monitor.js:80-84 | on rising lists the merge is concatenation, cut at both ends |
| Timeline.DeltaIsEnough | src/telemetry.rs:603-669 | what the ring holds beyond the cursor, merged, is what it holds in the window, even if it has overflowed |
| Telemetry.PingDelta | development/simpleadmin/www/js/monitor.js:77-87 | jitter included: a point stripped of its jitter earlier is first again, or gone |
| ResponseContents.JitterIsOfNeighbours | src/telemetry.rs:67-79 | over every sequence of probes, the jitter in the ring is the distance to the probe before, if both came back and none was missed |
| ResponseContents.FullResponseShowsWindow | src/telemetry.rs:599-669 | a full response shows exactly the samples of the last five minutes, each with its fields |
| ResponseContents.DifferenceIsFresh | src/telemetry.rs:603-615 | a response is a difference exactly if the cursor fits, and then holds exactly what is beyond it |
| ResponseContents.StatisticsAreOfWindow | src/telemetry.rs:616-686 | counts, sum, least and greatest latency and jitter are those of the points of the window |
| ResponseContents.BytesAreOfWindow | src/telemetry.rs:670-678 | byte totals are of the points that began within five minutes |
| ResponseContents.SeriesAreBounded | src/telemetry.rs:142-159 | the server keeps 300 probes and 150 samples of each kind |
| MonitorRun.PollIsExact | src/telemetry.rs:599-686 | one poll brings a page that is up to date with its cursor up to date with the server |
| MonitorRun.EveryPollIsExact | src/telemetry.rs:599-686 | after every run of samples, target changes, restarts and polls, the next poll gives the full response: points, statistics and byte totals |
| Monitor.TrafficSampler.Sample | src/telemetry.rs:110-140 | one reading: the new sampler state and the credited bytes |
| Monitor.CreditsTelescope | src/telemetry.rs:126-138 | over a stretch without reset, gap or missing counter the credited bytes are the counter difference |
| Monitor.AcceptedRise | src/telemetry.rs:117-121 | accepted stamps rise strictly |
| ResponseContents.CreditIsOfTwoReadings | src/telemetry.rs:110-140 | a reading is credited with what the counters rose by since the last, or with nothing after a reset, a gap or a missing counter |
| ResponseContents.FirstReadingHasNoCredit | src/telemetry.rs:123-138 | the first reading is credited with nothing |
| FreqLock.FreqLock.constructor | src/freq_lock.rs:194-222 | what is known at start from an absent, readable, unusable or unreadable file; an unusable one is to be rewritten |
| FreqLock.FreqLock.Save | src/freq_lock.rs:237-256 | a write that took place is remembered even if it failed to sync; nothing is written twice |
| FreqLock.FreqLock.Lock | src/freq_lock.rs:282-293 | an accepted lock starts a new generation |
| FreqLock.FreqLock.Unlock | src/freq_lock.rs:310-316 | an unlock starts a new generation before it is sent |
| FreqLock.FreqLock.Confirm | src/freq_lock.rs:390-395 | a guard that finds service says so only for the current lock |
| FreqLock.FreqLock.EndGuard | src/freq_lock.rs:443-457 | how a guard ends, for the current lock only |
| FreqLockRun.AcquiresRevertWaits | src/freq_lock.rs:408-431 | a guard that gets the mutex sends its one command if its generation is current, and only ends otherwise |
| FreqLockRun.AcquiresSaveWaits | src/freq_lock.rs:432-457 | a guard that saves writes, or has nothing to write, if its generation is current, and only ends otherwise |
| FreqLockRun.AnswersLockSent | src/freq_lock.rs:268-304 | the section of a lock call after its answer keeps the invariant |
| FreqLockRun.StepKeepsLive | src/freq_lock.rs:259-474 | every step of every task keeps mutual exclusion, generations, and what "checking" means |
| FreqLockRun.StaleGuardIsHarmless | src/freq_lock.rs:353-435 | a guard whose lock was replaced sends nothing and changes neither the saved entries nor the file |
| FreqLockRun.NothingAfterReplaced | src/freq_lock.rs:353-435 | in every continuation of every run, no guard of an older generation sends a command again |
| FreqLockRun.EveryRevertIsClean | src/freq_lock.rs:377-457 | over every interleaving, a guard that ends in "reverted" leaves in memory and file the entries from before the lock, or none, as the modem acknowledged; the file excepted if it could not be read at start and was not written since |
| FreqLockPatience.OnlyUnservedLocksAreTakenBack | src/freq_lock.rs:353-435 | over every interleaving, a guard sends a command only after exactly five checks of its lock that found no service, and a second one after five more |
| FreqLockPatience.ServiceKeepsLock | src/freq_lock.rs:388-396 | a guard whose lock serves ends there, shows it if it is current, and sends and changes nothing else |
| FreqLockPatience.ServiceKeepsPrevious | src/freq_lock.rs:417-431 | a previous lock that serves stays |
| FreqLockCalls.LockIsSavedAndGuarded | src/freq_lock.rs:259-304 | over every interleaving, what an accepted lock call leaves: the lock, a new generation, what is saved, and a guard that knows what was before |
| FreqLockCalls.UnlockIsComplete | src/freq_lock.rs:307-322 | over every interleaving, an unlock call shows "unlocked" exactly if it was acknowledged and nothing is saved any more |
| FreqLockCalls.RefusedCallEnds | src/freq_lock.rs:268-273 | a lock or unlock that is not taken changes nothing but perhaps the modem |
| FreqLockCalls.AcceptedLockIsSaved | src/freq_lock.rs:274-283 | a lock that the modem takes is saved, unless that is known to be done already |
| FreqLockCalls.RefusedUnlockAsks | src/freq_lock.rs:477-492 | a refused unlock is followed by the question what is locked |
| FreqLockCalls.DoneUnlockIsSaved | src/freq_lock.rs:318-321 | an unlock that is done is written exactly if the file is not known to be empty |
| FreqLockCalls.UnlockReplacesGuard | src/freq_lock.rs:309-317 | an unlock replaces a guard at work before it is sent, and what an earlier guard found stays shown |
| FreqLockCalls.ReplacedGuardStops | src/freq_lock.rs:356-363 | a guard whose lock was replaced stops before its next check |
| FreqLockCalls.PutBackIsConfirmed | src/freq_lock.rs:406-441 | what follows a guard's command, by the answer |
| FreqLockCalls.StartReadsFile | src/freq_lock.rs:194-210 | what is known at start |
| FreqLockCalls.UnknownOnlyIfUnread | src/freq_lock.rs:194-256 | over every run, what the file holds is unknown only if it could not be read at start and was not written since |
| FreqLockRun.LostAnswerHidesALock | src/freq_lock.rs:268-273 | a run that ends in "reverted" with the modem locked |
| FreqText.ReadList | src/freq_lock.rs:25-51 | the loop over the entered items |
| FreqText.AcceptedListIsSane | src/freq_lock.rs:25-51 | an accepted list has 1 to 32 entries within range and no frequency twice |
| FreqText.ShownListIsRead | src/freq_lock.rs:458-463 | a list of any 32-bit numbers, as the events show it, is taken when it is entered exactly if it may be, as the same entries |
| FreqText.ReportIsRead | src/parser.rs:927-941 | what the module reports for `command(entries)` is read as exactly those entries, among any other lines |
| FreqText.MismatchedReportIsRefused | src/parser.rs:927-941 | a report with another number of values than it says is not read, or tells of no lock |
| FreqText.ShortReportIsRefused | src/parser.rs:927-941 | nor is one without a list |
| FreqText.CommandIsSpelled | src/freq_lock.rs:53-60 | the lock command, spelled out |
| Decimal.PrintIsDecimal | src/freq_lock.rs:53-60 | numbers are printed digit by digit to the base ten |
| CellRules.LteCommand | src/actions.rs:113-123 | the loop that builds an LTE lock command, or fails on a parameter out of range |
| CellRules.LteLockIsRebuilt | src/cell_lock.rs:28-53 | an LTE lock command is accepted as a rule and rebuilt character for character from its numbers |
| CellRules.NrLockIsRebuilt | src/actions.rs:97-112 | so is an NR lock command |
| CellRules.RuleRoundTrip | src/cell_lock.rs:201-211 | the numbers saved for a command are the numbers it was built from |
| CellCommands.LteLockExactly | src/actions.rs:113-123 | one to ten cells are locked to exactly if each is within its range, by the command spelled out |
| CellCommands.NrLockExactly | src/actions.rs:97-112 | so is an NR cell, if its spacing is one of its band |
| CellCommands.SpacingExactly | src/actions.rs:76-96 | the spacings that each band allows |
| CellCommands.SavedLteExactly | src/cell_lock.rs:28-43 | saved LTE numbers are usable exactly if they are a count and that many cells |
| CellCommands.SavedNrExactly | src/cell_lock.rs:28-47 | saved NR numbers are usable exactly if they are those of such a cell |
| CellCommands.RebuiltExactly | src/cell_lock.rs:47-55 | a saved lock is sent again exactly if it is usable, by the command spelled out |
| CellLock.CellLock.constructor | src/cell_lock.rs:113-149 | a file that is too large, unreadable or invalid counts as empty and is rewritten by the next change |
| CellLock.CellLock.Persist | src/cell_lock.rs:157-175 | what is remembered after a write, and whether it counts as saved |
| CellLock.CellLock.Request | src/cell_lock.rs:186-271 | a request: refused, sent, saved, or rolled back |
| CellLock.CellLock.RestoreAll | src/cell_lock.rs:294-323 | the resend at start, radio by radio |
| CellLock.CellLock.CheckOne | src/cell_lock.rs:342-379 | one radio in a check: connected, fallback, or left alone |
| CellLock.CellLock.CheckAll | src/cell_lock.rs:324-381 | the check over both radios, while a deadline is set |
| CellLockRun.StepKeepsInv | src/cell_lock.rs:157-381 | every step keeps what holds of each radio |
| CellLockRun.FallbackMeansUnlocked | src/cell_lock.rs:324-381 | over every run, "fallback" means no rule that would come back, and an unlocked modem exactly if no unsaved lock was left in it |
| CellLockRun.LockedFallbackHasUnkept | src/cell_lock.rs:227-250 | over every run that ends locked in "fallback", some request locked the radio, could not be saved and was not taken back |
| CellLockRun.FallbackIsLeftLockedExactly | src/cell_lock.rs:227-250 | the exact condition under which a request in "fallback" leaves the modem locked there |
| CellLockRun.FallbackCanBeLocked | src/cell_lock.rs:239-249 | a run that gets there |
| CellLockRun.FailedFallbackStays | src/cell_lock.rs:347-379 | a fallback that failed half way keeps its deadline under every step but success or a new request, connection or not |
| CellLockRun.CheckGivesUp | src/cell_lock.rs:324-379 | a check of both radios gives up a lock whose time is up, or shows it as failed with its deadline as it was |
| CellLockRun.RestoreLeavesTouched | src/cell_lock.rs:294-302 | the resend at start never overrides a radio the user has changed |
| CellLockRun.FallbackOutlivesRestart | src/cell_lock.rs:356-360 | after a fallback, a restart does not lock the radio again |
| CellLockTime.CheckConfirms | src/cell_lock.rs:342-379 | a check that finds a connection at least 15 seconds after the lock confirms it, rule and modem unchanged; otherwise it waits until three minutes are over |
| CellLockTime.GivenUpOnlyUnconnected | src/cell_lock.rs:324-379 | over every run, a lock is given up only after three minutes in which no check from 15 seconds on found a connection |
| CellLockTime.RequestIsCarriedOut | src/cell_lock.rs:213-271 | what a request that succeeds leaves in the modem, in the file, and to wait for |
| CellLockTime.UnsavedLockIsTakenBack | src/cell_lock.rs:227-250 | a lock that cannot be saved gives way to the one saved before, or to none |
| CellLockTime.RefusedRequestChangesNothing | src/cell_lock.rs:186-217 | a request that is refused or not acknowledged changes nothing |
| CellLockTime.RestoreLocksAgain | src/cell_lock.rs:294-323 | at start exactly the radios with an enabled rule are locked again |
| CellLockTime.SavedLockComesBack | src/cell_lock.rs:186-323 | a lock is there again after a restart exactly if it was to be saved |
| AtPort.Receive | src/at.rs:670-699 | the receiving loop; without a prompt it returns what rescanning everything would |
| AtPort.ScanIsRescan | src/at.rs:487-492 | for every cut into pieces and every notion of a final line, the scan from the last line start stops at the same piece with the same buffer |
| AtLines.FinalLineExactly | src/at.rs:487-492 | a line is final exactly if, trimmed, it is OK or ERROR or begins like a CME or CMS error |
| AtLines.LinesAreRead | src/at.rs:487-492 | lines with either line break are read as they were |
| AtLines.PromptExactly | src/at.rs:685-687 | the modem prompts exactly if its last visible character is the prompt |
| AtLines.ContainsExactly | src/at.rs:684 | a word is found exactly if the text has it anywhere |
| AtLines.ReplyIsFirstComplete | src/at.rs:670-699 | a reply is all pieces up to the first that brings a final line, within 512 KiB |
| AtPort.PromptScanDisagreesExactly | src/at.rs:670-699 | with a prompt: the exact condition under which the scan misses what rescanning would see |
| AtPort.PromptScanCanDisagree | src/at.rs:670-699 | such a piece |
| AtPort.Port.InStorage | src/at.rs:599-615 | unless it says that restoring failed, the storage selected before is selected again, on every path |
| AtCache.Oldest | src/at.rs:88-92 | an idle response no newer than any other idle one, or none when none is idle |
| AtCache.TrimCache | src/at.rs:86-96 | the loop that trims the cache, which ends |
| AtCache.TrimDropsOldest | src/at.rs:86-96 | what is left fits or cannot be dropped; what was dropped was idle and no newer than what stayed; nothing more than needed, and nothing is lost otherwise |
| AtCache.TrimmedExactly | src/at.rs:86-96 | a cache is left alone exactly if it is within one mebibyte or nothing may be dropped |
| AtLog.AtLog.Queued | src/at_log.rs:106-127 | a new id, waiting last |
| AtLog.AtLog.Started | src/at_log.rs:128-141 | the command goes to the port, and one that never finished waits again, first |
| AtLog.AtLog.Finished | src/at_log.rs:153-181 | the command moves to the finished ones from wherever it was |
| AtLog.AtLog.KeepDone | src/at_log.rs:174-177 | the loop that lets the oldest finished commands go |
| AtLog.AtLog.DropExpired | src/at_log.rs:182-190 | the loop that drops expired commands from the front |
| AtLog.EveryIdIsInOnePlace | src/at_log.rs:106-190 | over every run each id handed out is in exactly one place, no other id anywhere, at most 100 finished |
| AtLog.FrontExpiryIsExact | src/at_log.rs:182-190 | looking at the front only removes exactly the expired commands if and only if none stands behind a fresh one |
| AtLog.EverySnapshotIsExact | src/at_log.rs:153-190 | in every run with finish stamps that do not go back, every snapshot removes exactly the expired commands |
| AtLogTimes.EveryCommandIsTimed | src/at_log.rs:106-190 | over every run, every command's waiting and running times are those of its stamps |
| AtLogTimes.QueuedWaitsLast | src/at_log.rs:106-127 | a queued command waits last, with an id of its own |
| AtLogTimes.StartedRuns | src/at_log.rs:128-141 | a started command runs, and what ran before waits first, as it was |
| AtLogTimes.FinishedIsLast | src/at_log.rs:153-181 | a finished command is the last of the finished ones, of which the newest hundred stay |
| AtLogTimes.UnknownChangesNothing | src/at_log.rs:128-181 | a call about an unknown command changes nothing |
| AtLogTimes.SnapshotsShowTheLatest | src/at_log.rs:182-190 | over every run with ordered finish stamps, a snapshot shows exactly what finished in the last 30 seconds |
| Events.Events.Push | src/events.rs:114-123 | a bounded list with a new id |
| Events.Events.ObserveProbe | src/events.rs:183-217 | one probe: the state, the events and the outage that ended |
| Events.Events.ResumeOutage | src/events.rs:233-240 | an outage that an earlier process recorded goes on |
| Events.Events.ResetOutage | src/events.rs:242-246 | the outage in progress is forgotten |
| Events.OutagesAreMeasured | src/events.rs:183-246 | over every run and all wall-clock steps: outages sent lasted at least ten seconds and have their monotonic length if and only if the wall clock shows that much; losses and ends alternate, none before a first success, ids in order |
| Events.FirstFailureStarts | src/events.rs:183-217 | the first failed probe after a success starts an outage |
| Events.OutageIsTold | src/events.rs:183-217 | an outage is told of by the first failed probe at least ten seconds after its start, with that start |
| Events.EndIsTold | src/events.rs:183-217 | its end is told at the first successful probe |
| Events.OldestEventGoes | src/events.rs:114-123 | the list holds the latest 200 events |
| Watchdog.StepsInOrder | src/watchdog.rs:69-98 | the steps are exactly the allowed ones, each once, milder first |
| Watchdog.Watchdog.constructor | src/watchdog.rs:179-207 | a new process takes the count from the file, or zero if it cannot |
| Watchdog.Watchdog.SetReboots | src/watchdog.rs:247-263 | the count in memory and, if the write takes place, in the file |
| Watchdog.Watchdog.EndSeries | src/watchdog.rs:286-292 | a working connection or the off switch ends the series |
| Watchdog.Watchdog.RebootStep | src/watchdog.rs:378-398 | a restart is sent only below the limit, after its count was stored |
| Watchdog.RestartsAreLimited | src/watchdog.rs:378-398 | over every run across processes, restarts since the series began exceed the limit by no more than files forgot, and not at all when files are written and read |
| Watchdog.UnwrittenCountsAreNoLimit | src/watchdog.rs:247-263 | without the file there is no limit |
| Watchdog.RestartIsCounted | src/watchdog.rs:378-398 | a restart below the limit is sent and counted for the next process, and at the limit nothing is done |
| Watchdog.SeriesIsOver | src/watchdog.rs:286-292 | a working connection ends the series, for the next process too |
| Watchdog.UnchangedIsNotWritten | src/watchdog.rs:247-263 | what is known already is not written again |
| Payload.Pack | installer/build.rs:44-59 | the loop over the files writes the packed form |
| Payload.Entries | installer/src/payload.rs:24-56 | the cursor loop reads what the format says, or fails |
| Payload.PayloadRoundTrip | installer/src/payload.rs:24-56 | what the build script writes is read back as exactly the files if and only if their lengths fit and their names are accepted |
| Payload.TrailingBytesAreIgnored | installer/src/payload.rs:34-55 | bytes after the last file do not matter |
| Payload.PrefixIsRejected | installer/src/payload.rs:26-33 | every strict prefix of a payload is rejected |
| Payload.PayloadLayout | installer/build.rs:44-59 | the format, byte by byte |
| Payload.RefusedFor | installer/src/payload.rs:34-55 | which failure a file is refused with |

## Left out

- Serial ports, files, sockets, DNS, HTTP, the web pages, locales, charts, routing and the installer's pages: no protocol of their own. What a modem, a file or a clock does is a parameter of each step.
- Parsing of JSON, CSV, command listings and dates: models start from parsed records; dates become optional seconds through a `Clock` function, and a field with a quoted comma is not modelled in `FreqText.Fields`.
- Hexadecimal spelling of PDUs, text normalisation (`newlines`), number and country tables, and `storage_blocks`: they add cases, not depth.
- Hashes (message identities, payload digests) are functions; `identity` is any function of an entry, so two messages with one digest are covered.
- Saturation of 64-bit times and counters: instants and counters are unbounded, as they cannot reach the limit.
- The order of a hash map is any order; every result holds for all of them.
- Texts of errors and statuses, the record list of forwarding, rounded shares and averages, and the cut of long AT responses: shown, never read back.
- Cancelled request handlers: a lock or unlock call runs to its end once it holds the mutex.
- Boot resend of the frequency lock, which reads the entries before taking the mutex, and the checks of its entries against bands and observed cells.
- The watchdog's milder steps and its switch back of the SIM: `Watchdog` models the restart budget only.
- The monitor's `ip`, which a delta leaves on older points: ignored by the comparison.
- The refresh loop and the other parts of the AT worker.
- Payload.PayloadRoundTrip: sizes are read on a 64-bit target, where `usize` holds them; hashing, UTF-8 and path safety are given functions.
- Watchdog.RestartsAreLimited: for one fixed limit, as a changed one starts no new series.
- FreqLockRun.EveryRevertIsClean: says what the modem acknowledged; what it holds is the same unless a command took effect without an answer.
