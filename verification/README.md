# Verified model of the Samsung UEFI platform code

This project models five parts of the platform repository in Dafny and proves properties of them.
`dafny verify dfyconfig.toml` checks everything.

**Boot images** (`Bits`, `Bytes`, `Struct`, `Paging`, `ImageFiles`, `BootImage`, `BootImageReader`,
`CommandLine`, `RamdiskTable`, `VendorBoot`). The writer of Android boot and vendor_boot images, as methods
that append to an output file, and a reader of images that knows only header fields and page arithmetic. The
main results are round trips: whatever is written without an exception reads back.

**Keypad driver** (`KeyQueue`, `KeyNotify`, `KeypadSpec`, `Keypad`). Two drop-oldest ring buffers and a list of
key notifications, as classes over arrays and references. `KeypadSpec` says over plain values what the driver
does; every method of the driver is proved against it, and the laws about whole runs, waiting, reading and
notification are proved about it.

**Network recovery** (`DfciHttp`, `DfciLogic`, `DfciSafety`, `DfciCards`, `DfciBody`, `DfciEffects`,
`DfciSources`, `DfciOutcome`, `DfciStages`, `DfciTruth`, `DfciBounds`, `DfciRequest`, `DfciCertificates`, `DfciRecovery`). The recovery client: chunked bodies, retries
with back-off, two stages per network card, response tables, and the TLS certificate variable. Server, network
cards, variable services and pool are scripts of outcomes over which every statement quantifies. `DfciRequest`
holds the client as a class whose methods are proved against the functions of `DfciHttp` and `DfciLogic`; safety
is stated about the log of what can be seen of such a run from outside: cards, exchanges and mailboxes.

**SMBIOS strings** (`SmbiosStrings`). The printer of a string set and the lookup that parses it, after section
6.1.3 of DSP0134.

**Index structures** (`MenuMap`, `Bitmap`). The front page menu's index columns under removals, and the word
bitmap against a plain set.

## Where the code does not do what it promises

Each of these is proved for all inputs, with the exact condition.

- After a first 202 another network card can be tried, although the comment in `ProcessAsyncRequest` says that no
  more are. The client sets DoneProcessing only after the exchange has ended without an error, so a 202 whose
  wait fails, whose content finds no buffer or whose content does not arrive leaves the loop running: the next
  card is tried if and only if every 202 of this card failed so (`DfciSafety.CardAfter202Iff`,
  `DfciSafety.NextCardIff`; `DfciHttp.EndsWell` says which exchanges fail; `DfciSafety.NextCardAfter202` is an
  input). A server never causes that, for any cards and services, if and only if its lost 202 answers all come
  after one that arrives (`DfciCards.NeverFollowedIff`).
- A final 200 without content is accepted with an older body: `ProcessAsyncRequest` only looks at whether the
  body field is set, and that field is cleared on a repeat and nowhere else during a run
  (`DfciBody.AnswersAreOwnIff`). Two empty replies to the recovery request apply the bootstrap answer again
  (`DfciBody.BootstrapAnswerReused`). Not even the card need be the same: a body that one card received, even with a
  500, is applied on the next card if it parses as a response and no exchange there brings content
  (`DfciSources.OtherCardsBodyApplied`; `DfciSources.MailboxSources` says for every run where each mailbox came
  from).
- The old TLS certificates come back only if their attributes are NV and BS, although the comment in
  `EnableDfciCertificate` foresees other attributes (`DfciCertificates.RestoredIffSameAttributes`); a variable
  that cannot be read is deleted all the same (`DfciCertificates.RestoredIffReadable`); and a second run in one
  session replaces it, because the size kept from the first makes the size query fail
  (`DfciCertificates.RestoredIffOneRun`). Both callers in the repository call it once.
- A key that matches m registrations leads to m * m callbacks (`KeyNotify.CalledOnceIff`).
- A menu removal leaves a gap when a string occurs more than once (`MenuMap.RemovalKeepsCompactIff`), and form
  index 0xFFFF opens the first unused row (`MenuMap.PickMatchesCell`).
- An empty string in an SMBIOS pack ends the set for the lookup (`SmbiosStrings.PackThenLookup`).
- NOT_FOUND from a variable service or the decoder is taken for "no updates". For given services every run reports
  truthfully if and only if they cannot fail with NOT_FOUND after a mailbox was written
  (`DfciTruth.RunsTruthfulIff`, `DfciOutcome.TruthfulIff`; `DfciTruth.HiddenWrite` is a run that does not). Section
  8.2 of the UEFI standard lists that status for SetVariable; whether an implementation returns it for the data
  written here is outside this model.

## Model

| member | source | states |
|---|---|---|
| BootImageReader.BootImageRoundTrip | ImageResources/mkbootimg.py:185-264 | for every version 0 to 4, page size and payload: a reader that knows only field widths and page arithmetic gets back kernel, ramdisk, second stage, recovery dtbo, dtb and signature byte for byte, the version word with the version above the patch level, board, command line and image id, and each load address as the base plus its own offset, 0 for an empty ramdisk or second stage, from any image that is written without an exception |
| BootImage.WriteBootImage | ImageResources/mkbootimg.py:650-668 | which exception the boot half of a run raises, if any, and otherwise the whole image it leaves |
| BootImage.BootOutcomeIs | ImageResources/mkbootimg.py:185-264 | which exception a run raises, in terms of its arguments alone: every integer in its field, a dtb for version 2, no second stage from version 3 on, in the order of the checks |
| BootImage.WriteHeader | ImageResources/mkbootimg.py:185-264 | the header fields of every version in order, the first exception among bad version, oversized field and empty dtb, and the padding to the page |
| BootImage.WriteHeaderV3AndAbove | ImageResources/mkbootimg.py:107-130 | the fields of versions 3 and 4, padded to 4096 whatever the page size |
| BootImage.WriteData | ImageResources/mkbootimg.py:624-634 | which payload files follow the header in each version, padded one by one, with zeros for the version 4 signature |
| BootImage.HashPayload | ImageResources/mkbootimg.py:222-230 | the hash input is each present payload with its length, in header order, an absent file counting as length 0 |
| BootImage.HashInputIs | ImageResources/mkbootimg.py:222-232 | the image id is a digest of kernel, ramdisk and second stage, from version 1 on the recovery dtbo and from version 2 on the dtb, each followed by its length in four bytes, least significant first |
| Bytes.LittleEndianIs | ImageResources/mkbootimg.py:76-82 | a packed 32-bit integer is its four bytes, least significant first |
| BootImageReader.ReservedWords | ImageResources/mkbootimg.py:121-122 | a reader finds zero in the four reserved words of versions 3 and 4 |
| BootImageReader.DeclaredHeaderSize | ImageResources/mkbootimg.py:249-252 | the header size that versions 1 to 4 declare is the number of bytes the fields take |
| BootImageReader.HeaderIsOnePage | ImageResources/mkbootimg.py:263-264 | the header fills exactly one page in every version and for every page size |
| BootImageReader.RecoveryDtboOffsetAgrees | ImageResources/mkbootimg.py:95-104 | the offset the header declares is the stream position at which the recovery dtbo is written, absent and empty files included |
| BootImageReader.RecoveryDtboFound | ImageResources/mkbootimg.py:95-104 | in every image with a recovery dtbo its bytes stand at the offset a reader finds in the header |
| Paging.PadLengthIs | ImageResources/mkbootimg.py:85-87 | for a power of two the masks compute the distance to the next page boundary |
| Paging.PadCompletesPage | ImageResources/mkbootimg.py:85-92 | the mask-based padding and the ceiling-division page count agree |
| Paging.CutSections | ImageResources/mkbootimg.py:352-356 | cutting at page offsets computed from sizes alone inverts writing padded files |
| ImageFiles.AppendAllIsSections | ImageResources/mkbootimg.py:352-356 | absent files write nothing and leave every later section at its page offset |
| ImageFiles.ImageFile.WritePaddedFile | ImageResources/mkbootimg.py:352-356 | appends the file and its padding, or nothing for an absent file |
| ImageFiles.ImageFile.PadFile | ImageResources/mkbootimg.py:85-87 | appends exactly the zeros that complete the page |
| Struct.UnpackPack | ImageResources/mkbootimg.py:197-220 | fixed-width little-endian fields that fit come back unchanged from their widths, whatever follows |
| CommandLine.SplitRoundTrip | ImageResources/mkbootimg.py:559-561 | for every accepted NUL-free command line the two fields, each read to its NUL, concatenate to the original |
| CommandLine.SplitFits | ImageResources/mkbootimg.py:480-487 | both length assertions after the split hold for every command line the parser accepts |
| CommandLine.CmdlineRoundTrip | ImageResources/mkbootimg.py:489-563 | through a whole image of any version the command line comes back unchanged |
| CommandLine.VersionWordLossless | ImageResources/mkbootimg.py:363-389 | the version word fits 32 bits and shifts and masks recover all five numbers |
| CommandLine.VersionsReadBack | ImageResources/mkbootimg.py:363-389 | for a version and a patch level that were parsed, shifts and masks of the word a reader finds in an image of any header version give back all five numbers |
| CommandLine.OsWordReadBack | ImageResources/mkbootimg.py:117-119 | for any version and a patch level of 11 bits the reader finds 2048 times the version plus the patch level |
| CommandLine.VersionsAccepted | ImageResources/mkbootimg.py:363-389 | accepted are exactly version numbers below 128, years 2000 to 2127 and months 1 to 12 |
| CommandLine.CmdlineAccepted | ImageResources/mkbootimg.py:480-487 | accepted are exactly command lines of at most 1534 bytes below version 3 and 1535 from there on |
| CommandLine.HashInputBindsPayload | ImageResources/mkbootimg.py:76-82 | equal hash inputs mean equal bytes in every section: the lengths make the concatenation unambiguous |
| VendorBoot.VendorBootV4RoundTrip | ImageResources/mkbootimg.py:133-182 | a reader that starts from the header alone finds the ramdisk section, dtb, table and boot config, and at every entry's offset and size its fragment |
| VendorBoot.VendorBootV3RoundTrip | ImageResources/mkbootimg.py:637-647 | ramdisk and dtb come back byte for byte, with command line, board, page size and load addresses |
| VendorBoot.WriteVendorBoot | ImageResources/mkbootimg.py:650-659 | end to end from the option groups: which exception is raised, and otherwise an image whose reader returns every fragment with its type, name and board id, in order, the dtb, boot config, command line and board, and each load address as the base plus its own offset |
| VendorBoot.HeaderOutcomeIs | ImageResources/mkbootimg.py:133-182 | an empty dtb is refused first; otherwise the header is written if and only if each load address, size and count fits its field |
| VendorBoot.AddErrorIs | ImageResources/mkbootimg.py:308-326 | which exception a fragment raises: the name "default", a name seen before, a board id word over 32 bits, a board id that is not 16 words, a missing file, in this order |
| VendorBoot.BuildPassesIff | ImageResources/mkbootimg.py:308-333 | a table is built if and only if every fragment is acceptable and no two have the same stripped name |
| VendorBoot.BuildFailsAt | ImageResources/mkbootimg.py:448-464 | otherwise the exception is that of the first fragment in command-line order that is refused |
| VendorBoot.FragmentsInOrder | ImageResources/mkbootimg.py:443-464 | --vendor_ramdisk comes first, as type 1 without a name or board id, then the option groups in order |
| VendorBoot.NoBoardId | ImageResources/mkbootimg.py:319-324 | a fragment without a board id gets sixteen zeros, another one its own words |
| VendorBoot.WriteVendorBootV4 | ImageResources/mkbootimg.py:637-644 | the outcome and the whole version 4 image |
| VendorBoot.WriteVendorBootV3 | ImageResources/mkbootimg.py:645-657 | the outcome and the whole version 3 image |
| VendorBoot.WriteVendorBootHeader | ImageResources/mkbootimg.py:133-182 | an empty dtb is refused before anything is written; otherwise all fields, padded |
| VendorBoot.BuildTable | ImageResources/mkbootimg.py:421-474 | the first exception over the fragments in order, or a table with one entry per fragment, the unnamed platform ramdisk first |
| VendorBoot.DeclaredHeaderSize | ImageResources/mkbootimg.py:138-142 | 2112 and 2128 are the byte counts of the fields |
| VendorBoot.HeaderPages | ImageResources/mkbootimg.py:182 | the vendor header takes two pages of 2048 and one of any larger size |
| RamdiskTable.TableGrows | ImageResources/mkbootimg.py:308-333 | every table that add_entry can reach has prefix sums as offsets, the sum as total, pairwise distinct stripped names, none of them the banned one |
| RamdiskTable.TableRoundTrip | ImageResources/mkbootimg.py:335-349 | table and ramdisk section read back to exactly the fragments |
| RamdiskTable.FragmentSlice | ImageResources/mkbootimg.py:335-339 | slicing the ramdisk section at an entry's offset and size gives that fragment |
| RamdiskTable.NamesOnDisk | ImageResources/mkbootimg.py:341-349 | the names in the image are the names that were checked: pairwise distinct and never reserved |
| VendorBoot.NameReadsBack | ImageResources/mkbootimg.py:281-287 | a ramdisk name given on the command line is the name a reader of the image finds |
| RamdiskTable.RamdiskTableBuilder.AddEntry | ImageResources/mkbootimg.py:308-333 | the exceptions in the order they are checked, an unchanged table on failure, one new entry on success |
| RamdiskTable.RamdiskTableBuilder.WriteRamdisksPadded | ImageResources/mkbootimg.py:335-339 | the concatenated fragments, padded once |
| RamdiskTable.RamdiskTableBuilder.WriteEntriesPadded | ImageResources/mkbootimg.py:341-349 | all entries packed in order and padded, or the exception of the first that does not fit |
| KeyQueue.RunConserves | Silicon/Samsung/SamsungPkg/Drivers/KeypadDxe/KeypadTextIn.c:25-80 | over every run of push, pop and reset the queue is a suffix of the keys pushed since the reset, at most 255 long, and pushed = removed and evicted, in order, + pending, the pushed keys being read off the operations |
| KeyQueue.EvictedOnlyWhenFull | Silicon/Samsung/SamsungPkg/Drivers/KeypadDxe/KeypadTextIn.c:70-74 | a key is evicted by a push into 255 pending keys and by nothing else, and a pop takes the oldest |
| KeyQueue.PushedAllIsLatest | Silicon/Samsung/SamsungPkg/Drivers/KeypadDxe/KeypadTextIn.c:66-80 | a batch keeps the latest 255 of what was queued and what came |
| KeyQueue.EfiKeyQueue.PushTail | Silicon/Samsung/SamsungPkg/Drivers/KeypadDxe/KeypadTextIn.c:66-80 | the ring of 256 slots does what the queue with its history does on a push |
| KeyQueue.EfiKeyQueue.PopHead | Silicon/Samsung/SamsungPkg/Drivers/KeypadDxe/KeypadTextIn.c:40-58 | NOT_READY exactly when empty, otherwise the oldest key leaves |
| KeyQueue.EfiKeyQueue.Clear | Silicon/Samsung/SamsungPkg/Drivers/KeypadDxe/KeypadController.c:100-103 | reset starts a new history |
| KeyNotify.MatchesIff | Silicon/Samsung/SamsungPkg/Drivers/KeypadDxe/KeypadTextIn.c:93-115 | a key matches if and only if scan code and character are equal, and shift and toggle state each are equal or zero in the registration |
| KeyNotify.CallsInOrder | Silicon/Samsung/SamsungPkg/Drivers/KeypadDxe/Keypad.c:164-177 | exactly the matching registrations are called, each once and in the order of registration |
| KeyNotify.IsKeyRegisteredIsPartialOrder | Silicon/Samsung/SamsungPkg/Drivers/KeypadDxe/KeypadTextIn.c:93-115 | the match relation is reflexive, transitive and antisymmetric on key patterns |
| KeyNotify.ReachableListsNoneSuperfluous | Silicon/Samsung/SamsungPkg/Drivers/KeypadDxe/KeypadTextIn.c:521-550 | over every run of register and unregister no earlier entry with the same function covers a later one |
| KeyNotify.RegistrationCovers | Silicon/Samsung/SamsungPkg/Drivers/KeypadDxe/KeypadTextIn.c:521-550 | after a successful registration every key that matches the request matches the returned entry, whose function is the requested one |
| KeyNotify.DispatchCount | Silicon/Samsung/SamsungPkg/Drivers/KeypadDxe/Keypad.c:164-177 | one copy queued per match and each copy sent to every match: the callbacks for a batch number the sum of m(k) squared |
| KeyNotify.CalledOnceIff | Silicon/Samsung/SamsungPkg/Drivers/KeypadDxe/Keypad.c:164-177 | for one key every matching registration is called exactly once if and only if at most one registration matches |
| KeyNotify.FourCallsForOneKey | Silicon/Samsung/SamsungPkg/Drivers/KeypadDxe/Keypad.c:164-177 | two matching registrations are called twice each for one key |
| KeypadSpec.CallbacksConserved | Silicon/Samsung/SamsungPkg/Drivers/KeypadDxe/KeypadTextIn.c:647-669 | however handler turns interleave with incoming keys, callbacks made + callbacks owed = callbacks due, in order |
| KeypadSpec.CallbacksAccounted | Silicon/Samsung/SamsungPkg/Drivers/KeypadDxe/Keypad.c:137-178 | for every interleaving, with or without overflow, callbacks made + owed + lost with an evicted copy = callbacks due, each as often |
| KeypadSpec.NothingLostIff | Silicon/Samsung/SamsungPkg/Drivers/KeypadDxe/Keypad.c:137-178 | no copy is lost if and only if every key that comes in finds room for all its copies |
| KeypadSpec.ExactNotificationCount | Silicon/Samsung/SamsungPkg/Drivers/KeypadDxe/KeypadTextIn.c:647-669 | with a fixed list and no overflow, a drained queue has led to exactly the callbacks of every key, copy by copy in registration order, and the sum of m(k) squared in number |
| KeypadSpec.WaitReadAgreement | Silicon/Samsung/SamsungPkg/Drivers/KeypadDxe/KeypadTextIn.c:297-320 | without a keypad error waiting signals if and only if a non-partial key is queued, and if the next poll does not overflow the next read returns that key and leaves the rest |
| KeypadSpec.KeyEntersIff | Silicon/Samsung/SamsungPkg/Drivers/KeypadDxe/Keypad.c:150-178 | a key with a scan code or a character always enters the main queue, with one copy per match in the notify queue; one with neither if and only if such keys are exposed |
| KeypadSpec.ReadSkips | Silicon/Samsung/SamsungPkg/Drivers/KeypadDxe/KeypadTextIn.c:222-271 | a read takes keys whose scan code and character are both zero, one a poll, and no others, and then reports an error, an empty queue or the first other key |
| KeypadSpec.NothingAfterError | Silicon/Samsung/SamsungPkg/Drivers/KeypadDxe/KeypadTextIn.c:239-320 | with a keypad error nothing is polled, signalled or read and nothing changes |
| KeypadSpec.SetStateBits | Silicon/Samsung/SamsungPkg/Drivers/KeypadDxe/KeypadTextIn.c:412-469 | bit 7 makes the rest count; the lowest of bits 0, 1 and 2 decides between scroll, number and capitals lock; bit 6 exposes partial keys if none of them is set |
| KeypadSpec.ResetForgets | Silicon/Samsung/SamsungPkg/Drivers/KeypadDxe/KeypadTextIn.c:171-211 | after a reset, over any run, queued keys and further callbacks are about keys handed over since the reset only |
| KeypadSpec.ResetEmpties | Silicon/Samsung/SamsungPkg/Drivers/KeypadDxe/KeypadTextIn.c:171-211 | a reset keeps the registrations and the history of callbacks and nothing else |
| KeypadSpec.DropPartialIs | Silicon/Samsung/SamsungPkg/Drivers/KeypadDxe/KeypadTextIn.c:297-320 | waiting removes exactly the leading keys whose scan code and character are both zero |
| KeypadSpec.FirstPopAfterPoll | Silicon/Samsung/SamsungPkg/Drivers/KeypadDxe/KeypadTextIn.c:239-247 | in general a read sees the oldest of the latest 255 keys |
| KeypadSpec.ReachableStates | Silicon/Samsung/SamsungPkg/Drivers/KeypadDxe/KeypadController.c:88-125 | in every reachable state, also between the turns of the handler, both queues hold at most 255 keys, no registration is superfluous, and no partial key is queued unless exposure was turned on since the last reset |
| KeypadSpec.HandledIsRun | Silicon/Samsung/SamsungPkg/Drivers/KeypadDxe/KeypadTextIn.c:628-670 | the handler is one of the interleavings of turns and incoming keys, so the laws about those hold of it, and it ends with an empty notify queue |
| KeypadSpec.CleanReadTakesOldest | Silicon/Samsung/SamsungPkg/Drivers/KeypadDxe/KeypadTextIn.c:239-270 | hence without exposure a read never skips a key |
| KeypadSpec.ControlLetters | Silicon/Samsung/SamsungPkg/Drivers/KeypadDxe/KeypadTextIn.c:257-266 | under either control key exactly the letters become 1 to 26, capital and small alike |
| Keypad.KeypadConsoleInDev.PushEfikeyBufTail | Silicon/Samsung/SamsungPkg/Drivers/KeypadDxe/Keypad.c:137-178 | partial keys are dropped unless exposed; a copy per match enters the notify queue and the key the main queue; the handler is signalled if and only if something matched |
| Keypad.KeypadConsoleInDev.TimerHandler | Silicon/Samsung/SamsungPkg/Drivers/KeypadDxe/KeypadController.c:41-75 | all keys handed over are received in order, nothing happens after an error, and the counter difference survives a wrap |
| Keypad.DeltasAddUp | Silicon/Samsung/SamsungPkg/Drivers/KeypadDxe/KeypadController.c:65-67 | over any number of polls the differences add up to the counter's advance modulo its range |
| Keypad.KeypadConsoleInDev.ReadKeyStrokeWorker | Silicon/Samsung/SamsungPkg/Drivers/KeypadDxe/KeypadTextIn.c:131-159 | polls, then reports an error, an empty queue, or the oldest key, which leaves the queue |
| Keypad.KeypadConsoleInDev.ReadKeyStroke | Silicon/Samsung/SamsungPkg/Drivers/KeypadDxe/KeypadTextIn.c:222-271 | the loop ends for every finite poll script and returns what the specification of reading gives |
| Keypad.KeypadConsoleInDev.WaitForKey | Silicon/Samsung/SamsungPkg/Drivers/KeypadDxe/KeypadTextIn.c:280-326 | the new state and the signal are those of the specification of waiting, after a poll |
| Keypad.KeypadConsoleInDev.Reset | Silicon/Samsung/SamsungPkg/Drivers/KeypadDxe/KeypadTextIn.c:171-211 | both queues, the locks and exposure are cleared, unless the device has failed |
| Keypad.KeypadConsoleInDev.SetState | Silicon/Samsung/SamsungPkg/Drivers/KeypadDxe/KeypadTextIn.c:412-469 | at most one lock is on; exposure is taken over only if no lock is asked for |
| Keypad.KeypadConsoleInDev.RegisterKeyNotify | Silicon/Samsung/SamsungPkg/Drivers/KeypadDxe/KeypadTextIn.c:490-558 | returns the first entry that covers the request with the same function, or a new one at the end; errors change nothing |
| Keypad.KeypadConsoleInDev.UnregisterKeyNotify | Silicon/Samsung/SamsungPkg/Drivers/KeypadDxe/KeypadTextIn.c:571-620 | removes exactly the named entry and keeps the order of the rest; a handle that is not listed is an error and changes nothing |
| Keypad.KeypadConsoleInDev.KeyNotifyProcessHandler | Silicon/Samsung/SamsungPkg/Drivers/KeypadDxe/KeypadTextIn.c:628-670 | with the timer bringing keys between its turns, drains the notify queue, calling every match of every copy in order |
| Keypad.KeypadConsoleInDev.FreeNotifyList | Silicon/Samsung/SamsungPkg/Drivers/KeypadDxe/Keypad.c:424-441 | the list ends empty |
| Keypad.TranslateKey | Silicon/Samsung/SamsungPkg/Drivers/KeypadDxe/KeypadTextIn.c:257-266 | the in-place character change is the translation that reading is specified with |
| DfciHttp.AssemblyIgnoresChunking | Silicon/Samsung/SamsungPkg/Applications/DfciMenu/DfciRequest.c:1258-1283 | for every split of a body into chunks the assembled body is their concatenation |
| DfciHttp.AssembledLength | Silicon/Samsung/SamsungPkg/Applications/DfciMenu/DfciRequest.c:1266-1283 | a completed body has exactly the announced length and starts with what the chunks brought, in order |
| DfciHttp.RemainingLengthBounds | Silicon/Samsung/SamsungPkg/Applications/DfciMenu/DfciRequest.c:1266-1279 | non-empty chunks no longer than what remains complete the body, at most one request per remaining byte |
| DfciHttp.ReadBody | Silicon/Samsung/SamsungPkg/Applications/DfciMenu/DfciRequest.c:1258-1283 | all writes stay in the buffer; the packet is the assembled body and a NUL, or the status of the chunk that failed |
| DfciHttp.AssemblyFailsWith | Silicon/Samsung/SamsungPkg/Applications/DfciMenu/DfciRequest.c:1266-1283 | a body that is not completed fails with the status of the first chunk that fails |
| DfciHttp.RetryBound | Silicon/Samsung/SamsungPkg/Applications/DfciMenu/DfciRequest.c:1316-1381 | for every server at most 6 requests, 5 pauses and 120 seconds of sleep, 31 if nothing is refused with 429 |
| DfciHttp.PauseBounds | Silicon/Samsung/SamsungPkg/Applications/DfciMenu/DfciRequest.c:1348-1370 | every pause lasts 1 to 24 seconds, whatever Retry-After says |
| DfciHttp.RequestPauses | Silicon/Samsung/SamsungPkg/Applications/DfciMenu/DfciRequest.c:1316-1381 | all pauses of a request, from the script: after a 429 the Retry-After seconds but at least 1 and at most 24; after a 429 without them or a repeated 202 the table's 1, 2, 4, 8 and 16 by attempt number |
| DfciHttp.RetryLoop | Silicon/Samsung/SamsungPkg/Applications/DfciMenu/DfciRequest.c:1316-1381 | the status returned and the HTTP status left behind are those of the last exchange, never the wait's timeout or an earlier attempt's |
| DfciHttp.AttemptsStop | Silicon/Samsung/SamsungPkg/Applications/DfciMenu/DfciRequest.c:1328-1379 | the loop goes on exactly while an exchange asks for a repeat and attempts are left |
| DfciHttp.RepeatsIff | Silicon/Samsung/SamsungPkg/Applications/DfciMenu/DfciRequest.c:1328-1370 | an exchange asks for a repeat if and only if it is a reply with code 429, or 202 to a request that waits for its answer, whose content, if any, has arrived |
| DfciHttp.LoopBody | Silicon/Samsung/SamsungPkg/Applications/DfciMenu/DfciRequest.c:1375 | what the loop leaves in the body field: the last exchange's content, or the body from before only if nothing was repeated |
| DfciSafety.ProtocolSafety | Silicon/Samsung/SamsungPkg/Applications/DfciMenu/DfciRequest.c:1640-1870 | over every server, card and variable service: a mailbox is written only from a body, after this card got 202 and after that 200 in the same stage, and only if the stage may write it; the recovery POST follows only a bootstrap stage that ended in SUCCESS or NOT_FOUND; cards are tried in order, and none after a POST whose 202 arrived in full |
| DfciSafety.NextCardIff | Silicon/Samsung/SamsungPkg/Applications/DfciMenu/DfciRequest.c:1454-1482 | card i is tried if and only if no POST on an earlier card was answered 202 in an exchange that ended without an error, as seen on the network |
| DfciSafety.CardAfter202Iff | Silicon/Samsung/SamsungPkg/Applications/DfciMenu/DfciRequest.c:1454-1482 | after a card the next one is tried if and only if every 202 its POSTs got came in an exchange that failed |
| DfciSafety.NextCardAfter202 | Silicon/Samsung/SamsungPkg/Applications/DfciMenu/DfciRequest.c:1460-1482 | a server whose 202 announces content that never arrives makes the client try the next card |
| DfciCards.NeverFollowedIff | Silicon/Samsung/SamsungPkg/Applications/DfciMenu/DfciRequest.c:1454-1482 | over all cards and services, no run tries a card after a POST answered 202 if and only if, at the server, every 202 that is lost comes after one that arrives |
| DfciHttp.EndsWell | Silicon/Samsung/SamsungPkg/Applications/DfciMenu/DfciRequest.c:1233-1283 | an exchange ends without an error if and only if a reply comes and its announced content, if any, finds a buffer and arrives; otherwise which status and HTTP status it leaves |
| DfciLogic.RequestIs | Silicon/Samsung/SamsungPkg/Applications/DfciMenu/DfciRequest.c:1384-1431 | for every server the status, HTTP status and answer of a request are those of its last exchange, its body is that exchange's content or the earlier one if nothing was repeated, and nothing else of the structure changes |
| DfciBounds.RunBound | Silicon/Samsung/SamsungPkg/Applications/DfciMenu/DfciRequest.c:1826-1866 | a whole run makes at most 12 requests and sleeps at most 240 seconds per card, and once more as much on the card that is taken up |
| DfciSafety.WatchedIsSafe | Silicon/Samsung/SamsungPkg/Applications/DfciMenu/DfciRequest.c:1443-1537 | a log that the step-by-step watcher accepts is safe at every one of its events |
| DfciSafety.AsyncAllowed | Silicon/Samsung/SamsungPkg/Applications/DfciMenu/DfciRequest.c:1443-1537 | a stage's request sets DoneProcessing exactly when one of its POSTs is answered 202 in an exchange that ends without an error, and succeeds only after the 200 and with a body |
| DfciSafety.ElementsAllowed | Silicon/Samsung/SamsungPkg/Applications/DfciMenu/DfciUpdate.c:507-624 | applying a response writes only the mailboxes its stage may write |
| DfciBody.AnswersAreOwnIff | Silicon/Samsung/SamsungPkg/Applications/DfciMenu/DfciRequest.c:1527-1533 | "a response is required" fails: whatever the server does the accepted body came with the final 200 if and only if the body field was empty when the request was made |
| DfciBody.AnswerTaken | Silicon/Samsung/SamsungPkg/Applications/DfciMenu/DfciRequest.c:1498-1533 | which body is taken for the answer, for every server: the final 200's content, or without content the body from before if the first attempt was answered 200 |
| DfciBody.StageAnswer | Silicon/Samsung/SamsungPkg/Applications/DfciMenu/DfciRequest.c:1443-1537 | an empty final 200 is accepted if and only if it came at once after a 202 with content, or after a first 202 without content in a request that already held a body |
| DfciBody.BootstrapAnswerReused | Silicon/Samsung/SamsungPkg/Applications/DfciMenu/DfciRequest.c:1715-1729 | two empty replies to the recovery request make the client apply the bootstrap answer as the recovery answer |
| DfciSources.MailboxSources | Silicon/Samsung/SamsungPkg/Applications/DfciMenu/DfciRequest.c:1826-1866 | over a whole run, which exchange the content of every written mailbox came from: the answer itself if and only if the answer brought content, an exchange of another card if and only if none on this card brought any, and in each case the body held at that moment; the log shows every exchange made, once and in order |
| DfciSources.HeldFromThisCard | Silicon/Samsung/SamsungPkg/Applications/DfciMenu/DfciRequest.c:1282-1283 | a held body was received on this card if and only if some exchange of this card brought content |
| DfciSources.OtherCardsBodyApplied | Silicon/Samsung/SamsungPkg/Applications/DfciMenu/DfciRequest.c:1527-1533 | a run in which a text that one card got with a 500, the only one that parses as a response, is written to a mailbox on the next card, whose own replies are empty |
| DfciSources.ErrorPageServed | Silicon/Samsung/SamsungPkg/Applications/DfciMenu/DfciRequest.c:1527-1533 | such a server, cards and services exist, and the server sends no more than it is asked for |
| DfciOutcome.RunTells | Silicon/Samsung/SamsungPkg/Applications/DfciMenu/DfciRequest.c:1678-1765 | SUCCESS means no recovery available, and no mailbox changed unless the variable services can hide a write; MEDIA_CHANGED means that a mailbox was written and a stage is complete |
| DfciOutcome.ElementsTell | Silicon/Samsung/SamsungPkg/Applications/DfciMenu/DfciUpdate.c:606-622 | for an applied response SUCCESS means that no element wrote a mailbox, MEDIA_CHANGED that one did, and there are as many successful SetVariable calls as writes |
| DfciOutcome.TruthfulIff | Silicon/Samsung/SamsungPkg/Applications/DfciMenu/DfciRequest.c:1678-1688 | for given variable services and decoder, SUCCESS and NOT_FOUND mean that nothing was written for every response, if and only if those services cannot fail with NOT_FOUND after a write |
| DfciTruth.RunsTruthfulIff | Silicon/Samsung/SamsungPkg/Applications/DfciMenu/DfciRequest.c:1678-1743 | the same for whole runs: every run that reports no updates has changed no mailbox, whatever server and cards do, if and only if the variable services and decoder cannot fail with NOT_FOUND after a write |
| DfciTruth.HiddenWrite | Silicon/Samsung/SamsungPkg/Applications/DfciMenu/DfciRequest.c:1678-1743 | a run over services that can, ending with no recovery available after a write |
| DfciRecovery.MessageTellsTheTruth | Silicon/Samsung/SamsungPkg/Applications/DfciMenu/DfciRequest.c:2088-2131 | "no updates are available" is shown only if no mailbox changed, unless the variable services can hide a write, more updates are announced only if the bootstrap stage wrote one, and recovery is said to be complete only if the recovery stage did |
| DfciRecovery.ProcessDfciNetworkRequest | Silicon/Samsung/SamsungPkg/Applications/DfciMenu/DfciRequest.c:2054-2160 | on every exit path the certificates are handled and the request zones cleared; the status, the message and a safe log |
| DfciRequest.NetworkRequest.ProcessHttpRequest | Silicon/Samsung/SamsungPkg/Applications/DfciMenu/DfciRequest.c:1157-1289 | one exchange does to the structure what its outcome calls for, and nothing else |
| DfciRequest.NetworkRequest.ProcessHttpRequestInternal | Silicon/Samsung/SamsungPkg/Applications/DfciMenu/DfciRequest.c:1303-1382 | the do-loop computes the retry specification, within 6 requests, 5 pauses and 120 seconds; each pause is the one its exchange and attempt number call for |
| DfciRequest.NetworkRequest.ProcessHttpRequestWithRetries | Silicon/Samsung/SamsungPkg/Applications/DfciMenu/DfciRequest.c:1384-1431 | a failed configuration makes no request |
| DfciRequest.NetworkRequest.ProcessAsyncRequest | Silicon/Samsung/SamsungPkg/Applications/DfciMenu/DfciRequest.c:1443-1537 | status, structure and DoneProcessing after the POST and the GET, DoneProcessing never being cleared |
| DfciRequest.NetworkRequest.ProcessFunction | Silicon/Samsung/SamsungPkg/Applications/DfciMenu/DfciUpdate.c:474-625 | the first table entry with the field's name decides; unknown names, missing values, undecodable values and wrong signatures are errors that write nothing |
| DfciRequest.NetworkRequest.DfciUpdateFromJson | Silicon/Samsung/SamsungPkg/Applications/DfciMenu/DfciUpdate.c:637-649 | elements in order up to the first failure |
| DfciRequest.NetworkRequest.DfciMainLogic | Silicon/Samsung/SamsungPkg/Applications/DfciMenu/DfciRequest.c:1640-1765 | both stages with the switch on one merged status |
| DfciRequest.NetworkRequest.TryEachNICThenProcessRequest | Silicon/Samsung/SamsungPkg/Applications/DfciMenu/DfciRequest.c:1775-1881 | cards in order until done, and the status of the last one tried; the log it leaves is safe, every mailbox in it has a known source, and requests and sleep keep the bound of a run |
| DfciRequest.NetworkRequest.CleanupResponse | Silicon/Samsung/SamsungPkg/Applications/DfciMenu/DfciRequest.c:1057-1070 | the response zone is emptied and no other changes |
| DfciRequest.NetworkRequest.CleanupStatus | Silicon/Samsung/SamsungPkg/Applications/DfciMenu/DfciRequest.c:1072-1087 | the status zone is emptied and no other changes |
| DfciLogic.Lookup | Silicon/Samsung/SamsungPkg/Applications/DfciMenu/DfciUpdate.c:507-511 | the first entry of the table with the field's name, if any |
| DfciLogic.TableStaysAllowed | Silicon/Samsung/SamsungPkg/Applications/DfciMenu/DfciUpdate.c:87-202 | each table maps only to the mailboxes of its stage, and only decoded values go there |
| DfciEffects.ElementIs | Silicon/Samsung/SamsungPkg/Applications/DfciMenu/DfciUpdate.c:113-192 | for all services and values, by field name: TransitionPacket1 and ProvisioningPacket go to the identity mailbox, TransitionPacket2 to the second one, PermissionsPacket and SettingsPacket to theirs, each as exactly the decoded bytes and only with the mailbox's own signature; ResultMessage and ResultCode set message and return code; nothing else changes |
| DfciEffects.ElementIncomplete | Silicon/Samsung/SamsungPkg/Applications/DfciMenu/DfciUpdate.c:493-502 | an element without a name or a value is refused |
| DfciEffects.ElementsAre | Silicon/Samsung/SamsungPkg/Applications/DfciMenu/DfciUpdate.c:637-649 | a response is applied up to the first element that fails, whose status it gets; without one it gets MEDIA_CHANGED if any element did |
| DfciEffects.AsyncStatusIs | Silicon/Samsung/SamsungPkg/Applications/DfciMenu/DfciRequest.c:1443-1537 | from the script: which status a stage's request ends with, the first thing that goes wrong deciding, and that DoneProcessing is set by the 202 and nothing after it |
| DfciEffects.StageStatusIs | Silicon/Samsung/SamsungPkg/Applications/DfciMenu/DfciRequest.c:1658-1675 | what a stage makes of its answer: a text that does not parse is INVALID_PARAMETER, a response without elements NOT_FOUND, otherwise the status of its elements |
| DfciEffects.BootstrapStageEnds | Silicon/Samsung/SamsungPkg/Applications/DfciMenu/DfciRequest.c:1640-1713 | after SUCCESS or NOT_FOUND the recovery stage follows, with MEDIA_CHANGED the bootstrap is complete, any other status ends the card as it is |
| DfciEffects.RecoveryStageEnds | Silicon/Samsung/SamsungPkg/Applications/DfciMenu/DfciRequest.c:1715-1763 | SUCCESS and NOT_FOUND become SUCCESS without updates, MEDIA_CHANGED completes the recovery, any other status is returned as it is; DoneProcessing stays set |
| DfciEffects.RequestForgets | Silicon/Samsung/SamsungPkg/Applications/DfciMenu/DfciRequest.c:1072-1087 | a request forgets message and return code of earlier ones |
| DfciEffects.CardPassedOver | Silicon/Samsung/SamsungPkg/Applications/DfciMenu/DfciRequest.c:1833-1852 | a card whose handle fails or without a medium sends and writes nothing |
| DfciEffects.LastCardDecides | Silicon/Samsung/SamsungPkg/Applications/DfciMenu/DfciRequest.c:1826-1866 | a run ends in NOT_FOUND without cards, otherwise with the status of the last card it tried, which is one that was taken up or the last of all |
| DfciStages.RunAddressed | Silicon/Samsung/SamsungPkg/Applications/DfciMenu/DfciRequest.c:1655-1725 | over every run the bootstrap request goes to the bootstrap URL and the recovery request to the other one |
| DfciStages.RunAnnounces | Silicon/Samsung/SamsungPkg/Applications/DfciMenu/DfciRequest.c:1678-1756 | over every run MEDIA_CHANGED comes with the final state of the stage that wrote a mailbox |
| DfciCertificates.FreedExactlyOnce | Silicon/Samsung/SamsungPkg/Applications/DfciMenu/DfciRequest.c:1890-2026 | under every combination of failing services and allocations each buffer is freed exactly once and nothing stays saved |
| DfciCertificates.EnabledIs | Silicon/Samsung/SamsungPkg/Applications/DfciMenu/DfciRequest.c:1932-2026 | which status enabling ends with, from the failing calls and allocations, and that SUCCESS leaves the packaged certificate as non-volatile and boot-service data |
| DfciCertificates.RestoredIff | Silicon/Samsung/SamsungPkg/Applications/DfciMenu/DfciRequest.c:1932-2026 | for every combination of failing calls and allocations, whether the old variable is there in the end, decided from what fails and its attributes alone |
| DfciCertificates.RestoredIffReadable | Silicon/Samsung/SamsungPkg/Applications/DfciMenu/DfciRequest.c:1932-2026 | if no write fails, the old variable is back if and only if it could be read or was never touched; one that cannot be read is replaced |
| DfciCertificates.RestoredIffSameAttributes | Silicon/Samsung/SamsungPkg/Applications/DfciMenu/DfciRequest.c:1902-1911 | with services that work, restoring succeeds if and only if the old attributes are NV and BS, because the recovery certificate is not deleted first |
| DfciCertificates.RestoredIffOneRun | Silicon/Samsung/SamsungPkg/Applications/DfciMenu/DfciRequest.c:1943-1954 | over any number of runs in a session the old variable survives one and is replaced for good by a second, whose size query fails |
| DfciCertificates.NothingToRestore | Silicon/Samsung/SamsungPkg/Applications/DfciMenu/DfciRequest.c:1898-1900 | with no old variable the recovery certificate stays behind whenever it could be set |
| DfciCertificates.SignatureListReads | Silicon/Samsung/SamsungPkg/Applications/DfciMenu/DfciRequest.c:1994-2009 | a reader of the variable finds one list that spans it, one signature, and the certificate behind the header |
| DfciCertificates.CertificateKeeper.EnableDfciCertificate | Silicon/Samsung/SamsungPkg/Applications/DfciMenu/DfciRequest.c:1932-2026 | the new state under every fault, and the status |
| DfciCertificates.CertificateKeeper.RestoreCertificates | Silicon/Samsung/SamsungPkg/Applications/DfciMenu/DfciRequest.c:1890-1918 | writes the saved variable, frees it once and forgets it; does nothing when nothing is saved |
| SmbiosStrings.PackThenLookup | Silicon/Samsung/E7570Pkg/Drivers/SmBiosTableDxe/SmBiosTableDxe.c:568-605 | looking up 1..n returns the packed strings if and only if none is empty; index 0 is empty and an index past the end NOT_FOUND, always |
| SmbiosStrings.FindInStringSet | Silicon/Samsung/SamsungPkg/Applications/FrontPage/FrontPage.c:202-236 | which index finds which string, for every pack, empty strings included |
| SmbiosStrings.RecordEndsInDoubleNul | Silicon/Samsung/E7570Pkg/Drivers/SmBiosTableDxe/SmBiosTableDxe.c:589-605 | the record ends in two zero bytes, so a search stays inside it |
| SmbiosStrings.RecordSize | Silicon/Samsung/E7570Pkg/Drivers/SmBiosTableDxe/SmBiosTableDxe.c:568-587 | the size computed first is exactly the size of the record |
| SmbiosStrings.LogSmbiosData | Silicon/Samsung/E7570Pkg/Drivers/SmBiosTableDxe/SmBiosTableDxe.c:544-616 | every write stays in the computed size; the record starts with the template, each string stands at the sum of the lengths before it followed by a zero, and the set ends in one more zero, or two if it is empty |
| SmbiosStrings.GetOptionalStringByIndex | Silicon/Samsung/SamsungPkg/Applications/FrontPage/FrontPage.c:200-236 | the moving-pointer loop stays inside the record and computes the lookup |
| MenuMap.RemovalKeepsCompactIff | Silicon/Samsung/SamsungPkg/Applications/FrontPage/FrontPage.c:866-898 | a removal keeps a column gap-free if and only if no surviving row has two removed rows above it |
| MenuMap.RemovalsKeepMenu | Silicon/Samsung/SamsungPkg/Applications/FrontPage/FrontPage.c:866-898 | any sequence of removals from a table with distinct strings leaves both columns gap-free and the menu in its old order without the removed strings |
| MenuMap.IndexWithoutWrap | Silicon/Samsung/SamsungPkg/Applications/FrontPage/FrontPage.c:890-896 | in a gap-free column the 16-bit subtraction never wraps |
| MenuMap.RemovalKeepsForms | Silicon/Samsung/SamsungPkg/Applications/FrontPage/FrontPage.c:866-898 | a removal changes no row's string or form |
| MenuMap.PickMatchesCell | Silicon/Samsung/SamsungPkg/Applications/FrontPage/FrontPage.c:769-782 | the selected cell opens the row whose text it shows; an index past the menu finds nothing, except 0xFFFF, which opens the first unused row |
| MenuMap.FormMapIsCompact | Silicon/Samsung/SamsungPkg/Applications/FrontPage/FrontPage.c:111-128 | the driver's own table starts gap-free with distinct strings |
| MenuMap.FormMapMenu | Silicon/Samsung/SamsungPkg/Applications/FrontPage/FrontPage.c:111-128 | the full menu starts with all six entries and the limited one with the first, fourth and sixth |
| MenuMap.RepeatedStringLeavesGap | Silicon/Samsung/SamsungPkg/Applications/FrontPage/FrontPage.c:866-898 | a table in which a removal leaves a gap |
| MenuMap.RemoveMenuFromList | Silicon/Samsung/SamsungPkg/Applications/FrontPage/FrontPage.c:866-898 | both columns are renumbered in place in one pass |
| MenuMap.CreateTopMenu | Silicon/Samsung/SamsungPkg/Applications/FrontPage/FrontPage.c:974-980 | every cell holds the text of the last row with its index; a gap-free column fills the first cells in order and leaves the rest empty |
| MenuMap.CellTextIs | Silicon/Samsung/SamsungPkg/Applications/FrontPage/FrontPage.c:974-980 | a cell has a text if and only if a used row has its index, and it is that of the last such row |
| MenuMap.CallFrontPage | Silicon/Samsung/SamsungPkg/Applications/FrontPage/FrontPage.c:724-811 | the first row with the index, or NOT_FOUND if there is none |
| Bitmap.RunRefinesSet | Silicon/Samsung/SamsungPkg/Include/Library/BitmapLib.h:46-62 | over every sequence of in-range operations the words represent exactly the abstract set and each operation returns prior membership |
| Bitmap.ApplyRefinesSet | Silicon/Samsung/SamsungPkg/Include/Library/BitmapLib.h:46-62 | a set or clear changes the one member and leaves every other bit alone |
| Bitmap.BitmapSet | Silicon/Samsung/SamsungPkg/Include/Library/BitmapLib.h:46-50 | in place: the words of the set with the bit, and whether it was there |
| Bitmap.BitmapClear | Silicon/Samsung/SamsungPkg/Include/Library/BitmapLib.h:52-57 | in place: the words of the set without the bit, and whether it was there |
| Bitmap.BitmapTest | Silicon/Samsung/SamsungPkg/Include/Library/BitmapLib.h:59-62 | membership, with nothing changed |
| Bitmap.AtomicOr | Silicon/Samsung/SamsungPkg/Include/Library/AtomicLib.h:41-52 | one word is combined and its old value returned |
| Bitmap.AtomicAnd | Silicon/Samsung/SamsungPkg/Include/Library/AtomicLib.h:28-39 | one word is combined and its old value returned |

## Left out

- Argument parsing proper, regular expressions and opening files: parsed values and file contents are inputs.
- The signature made by avbtool: only the unsigned version 4 image is modelled.
- SHA-1: any function from bytes to bytes may stand for it.
- A file whose size cannot be read, or that changes between taking its size and writing it.
- Partial output of a boot image run that raises an exception.
- BootImage.WriteHeaderV3AndAbove: requires a version of 3 or 4, which its only caller guarantees.
- Paging.PadCompletesPage: requires a power of two, which the choices of the page size option guarantee.
- Keypad device errors while scanning, and the ten modifier flags that InitKeypad clears: nothing modelled reads them.
- The NotifyHandle parameter being NULL, and a freed registration's address being used again for a new one.
- Notification callbacks that change the registration list while it is walked.
- Task priority levels: the driver's critical sections are taken to exclude each other, and keys come in between handler turns.
- Keypad.KeypadConsoleInDev.FreeNotifyList: does not say that the memory of each entry is released.
- DfciRequest.NetworkRequest.CleanupResponse: does not say that body and headers are released.
- DfciRequest.NetworkRequest.CleanupStatus: does not say that message and return code are released.
- JsonLibParse and Base64Decode are not part of this repository. It is assumed that parsing applies the elements in order, stops at the first status other than SUCCESS and MEDIA_CHANGED, reports MEDIA_CHANGED if any element did, NOT_FOUND for no elements and INVALID_PARAMETER for text it cannot parse.
- DfciOutcome.RunTells: assumes that the network, the variable services and decoding do not fail with MEDIA_CHANGED, which the client cannot tell from a result.
- DfciSafety.ProtocolSafety: does not say that the body applied came with the 200; DfciSources.MailboxSources says where it came from.
- Exchanges are taken to hand over no more body than was asked for (`DfciHttp.Plausible`), as the HTTP protocol interface guarantees.
- The status that the HTTP protocol leaves in a completed token: the client never reads it, so in the model as in the code such a chunk counts as delivered, with arbitrary bytes.
- A server that sends empty chunks for ever: a chunk script is finite, and one that stops short times out.
- DfciCertificates.RestoredIff: assumes that the size query does not fail with BUFFER_TOO_SMALL, its way of reporting a size.
- DfciCertificates.RestoredIffSameAttributes: SetVariable and GetVariable behave as section 8.2 of the UEFI standard says; their implementation is not part of this model.
- Network, DHCP, TLS and HTTP protocol calls other than their outcome, and the status of tearing a connection down, which the code ignores.
- Memory that is never freed, such as the headers of the 202, which the first reply to the GET overwrites.
- A Content-Length that wraps when 1 is added, and failing allocations of plain copies of response fields.
- InitializeNetworkRequest with an empty URL setting, where it returns SUCCESS: its status is an input.
- The USB response table, BuildUsbRequest, Check429Logic and SimpleMainLogic: special cases of what is modelled.
- DfciRecovery.ProcessDfciNetworkRequest: says which message format is chosen, not the formatted text, and takes memory for it to be available.
- DfciCertificates.SignatureListReads: assumes a certificate whose list fits 32 bits.
- SmbiosStrings.LogSmbiosData: a NULL string pack, which no caller passes, and the call that adds the record.
- SmbiosStrings.GetOptionalStringByIndex: the widening to 16-bit characters and the release of its buffer.
- MenuMap.CreateTopMenu: does not model drawing, or the list beyond the index column.
- Bitmap.AtomicOr: interrupts are taken to be excluded, as raising the priority level does.
- The memory tables, SMBIOS data tables, reset and GPIO drivers, frame buffer driver, build scripts and policy blob: constants and register writes.
