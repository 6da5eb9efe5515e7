# XePCI driver model

XePCI is a macOS kernel extension for Intel Xe-LP graphics. This project models the driver's own logic and proves
what it guarantees over every boot text, every device behaviour and every run.

The model has two layers. `Driver` is a state machine on values: bring-up, shutdown, the buffer registry and the
user-client calls, with `Run` folding any sequence of them. The device is a function from the whole access history to
an answer, so a statement about all devices covers every register content, every timing and every change over time.
The history records each read, each write and each delay. The classes (`BootArgs.BootState`, `Guard.ForcewakeGuard`,
`Stream.XeCommandStream`, `Buffers.BoList`, `Service.XeService`, `UserClient.XeUserClient`) update their fields step
by step as the C++ objects do, and each method is proved to do exactly what the state machine says.
`Replay.Execute` carries that over to whole runs: any sequence of operations, performed on the objects, gives the
replies and ends in the state that `Run` computes. The lemmas then speak about runs of the state machine.
`Transcripts` and `Answers` tell once more, register by register and request by request, what each operation does to
the device and what it returns, and prove that the state machine does exactly that.

What the kernel decides (whether `super` calls succeed, what mapping BAR0 yields, whether memory or list growth is
available, what a fresh buffer contains) is a parameter of each operation and is unrestricted. A run is called legal if
it never starts a service that still holds a mapping; unless a statement says legal, it holds for all runs.

Main results:

- **Boot text.** The in-place scanner computes, for every NUL-terminated buffer, the union over all comma-separated
  fields, and each flag is set exactly if some maximal comma-free stretch is one of its keywords up to leading blanks
  and letter case.
- **Device history.** Over any run the only writes are the two forcewake words; a boot text rules out every write
  exactly if it mentions `noforcewake`, `nocs` or `strictsafe`. Every history follows a protocol monitor until forcewake
  is disabled and has no write afterwards, so every clear comes after a request and its acknowledgement. Whatever the
  request register held at reset, its value after any run is known: bit 0 is the last bit written, if any, and the other
  15 bits never change.
- **Transcripts.** In every run every read returned what the device answered at that moment. Bring-up, the ring log, a
  submission and the three register queries are given as lists of registers in order, with the exact conditions under
  which each is read; a submission waits exactly one millisecond for each of the device's first 50 answers that refuses.
- **Answers.** Every call's code, new state and scalars, from the request and the device's answers alone.
- **Ownership.** In every state of a legal run every buffer ever allocated has two references while listed and none
  otherwise, and the register pointer is backed by a live mapping. In every run without exception, a buffer never
  changes after the operation that made it except that its references go from two to none, and a buffer without
  references is never touched again. Every buffer is a whole number of pages between one and 64 MiB.
- **Cookies.** Cookies 1..N name the N listed buffers one to one in creation order, and keep doing so until the next
  stop or start that maps BAR0; in a legal run, until the next stop.
- **Restarts.** Over any run the live mappings are the held one and one more for each start that overwrote a held one.
- **Independence.** Two runs of the same requests on any two devices keep the same bookkeeping, byte for byte, and
  return the same codes.
- **Bounds.** The exact BAR0 length that keeps every access of every run inside it, with and without restarts that are
  offered an empty BAR.

Properties that fail, with the exact condition under which they hold:

- A submission withdraws its forcewake request exactly if, among the device's first 50 answers, one has bit 0 set and
  the first such is no sentinel; otherwise the request bit stays set (`Histories.ReleasedIffAcknowledged`,
  `Histories.SilentDeviceKeepsRequest`).
- The request register tells whether the last write was a request exactly if its bit 0 was clear at reset or something
  was written (`Histories.RunRequestRegister`). With bit 0 set at reset it shows a request that was never made
  (`Histories.RequestSetAtReset`), and a granted submission withdraws that one too
  (`Histories.ReleasedIffAcknowledged`).
- A submission reads the ring under a request of its own exactly if forcewake is not disabled
  (`Histories.SubmitRequestsIff`, `Histories.RingReadWithoutRequest`).
- Bring-up, and every run whose mappings all have the same length, stays inside an aligned BAR0 exactly if it has at
  least 0x100008 bytes (0x104 when strict-safe); the 1 MiB size below which it warns is eight bytes short
  (`Bounds.BringUpFitsIff`, `Bounds.RunsFitIff`, `Bounds.OneMegabyteIsShort`).
- A second start that is offered an empty BAR keeps the pointer but forgets the length, so that the length test never
  refuses again, and a configuration query reads 0x138108 however short the mapping is (`Bounds.ForgottenLength`). With
  such starts every run stays inside an aligned BAR0 exactly if it has at least 0x13810C bytes
  (`Bounds.EmptyRestartsFitIff`); without them 0x100008 bytes are enough (`Bounds.RunInBar`).
- Starting keeps the register pointer backed, whatever the kernel answers, exactly if the service holds no pointer
  (`Restarts.StartIsSafeIff`, `Restarts.RestartOrphansPointer`).
- A stop brings the service down, and no call touches the device until a later start, exactly if the register pointer
  was null or its mapping still held (`Restarts.StopSilencesIff`). After a start and a second start that gets no
  mapping, a stop leaves the pointer set, and a submission then writes to the device (`Restarts.StopKeepsOrphan`,
  `Restarts.WriteAfterStop`).
- Starting loses no buffer and keeps every cookie, whatever the kernel answers, exactly if no buffer is listed
  (`Restarts.StartLosesNothingIff`, `Restarts.StartKeepsCookiesIff`). A start, a create and a second start lose the
  buffer and its cookie (`Restarts.RestartLosesBuffer`), and a lost buffer is never released (`Restarts.LostForever`).
- An allocation covers the 64-bit request exactly if that is at most 64 MiB (`Sizes.RequestCovered`), and the rounding
  alone is right exactly up to 0xFFFFF000 (`Sizes.PageAlignIff`).
- Fields are trimmed on the left only, although the comment says "trim". That agrees with trimming both sides exactly
  for fields that do not end in a blank and for fields that are no keyword (`BootArgs.TrimsFullyIff`,
  `BootArgs.HiddenNocs`).

Where documents and code differ the code is followed: `docs/STATUS.md` calls the guard and the command stream stubs
and promises that strict-safe reads only a few registers, while the code runs both and lets user queries read the
allow-lists in every mode; the repository's README shows a register reader that returns 0 for a null pointer, while
the code returns a sentinel.

Assumed of code that is not part of this model: `PE_parse_boot_argn` leaves a NUL-terminated text in the buffer;
`OSArray` retains on a successful append, never holds more than 2^32 - 1 objects and releases every element when it is
freed; `IOUserClient::externalMethod` calls a handler only when both scalar counts equal those of its table row; calls
do not overlap. Bits 31..16 of a word written to the forcewake request select which of bits 15..0 take effect.

## Model

| member | source | states |
|---|---|---|
| BootArgs.BootState.Parse | kexts/XeBootArgs.cpp:14-44 | for every NUL-terminated buffer the scan ends, stays in bounds, overwrites exactly the commas of the text and adds exactly the flags of the text |
| BootArgs.BootState.TakeField | kexts/XeBootArgs.cpp:23-43 | one iteration cuts off the field at p, adds its flags and yields the start of the next field, or none at the last |
| BootArgs.BootState.ApplyToken | kexts/XeBootArgs.cpp:31-41 | a token adds its keyword's flags and never clears one |
| BootArgs.StrChr | kexts/XeBootArgs.cpp:23 | finds the first occurrence within the C string, or shows there is none |
| BootArgs.CopyToken | kexts/XeBootArgs.cpp:26-30 | the token is the field without leading blanks, in lower case, cut to 63 characters; it is a word of fewer than 63 letters exactly if the field spells that word in either case after blanks and tabs |
| BootArgs.TokenSpells | kexts/XeBootArgs.cpp:26-30 | a field counts as a keyword exactly if it is blanks and tabs followed by the keyword's letters, each in either case |
| BootArgs.TruncationIsHarmless | kexts/XeBootArgs.cpp:27-30 | the cut to 63 characters never creates or hides a keyword |
| BootArgs.SplitJoined | kexts/XeBootArgs.cpp:22-44 | joining texts with a comma concatenates their field lists |
| BootArgs.JoinedTextFlags | kexts/XeBootArgs.cpp:22-44 | parsing two texts joined by a comma gives the union of parsing each |
| BootArgs.SameFieldsSameFlags | kexts/XeBootArgs.cpp:22-44 | field order, repetition, letter case and blank fields do not matter: texts whose fields spell the same words give equal flags |
| BootArgs.TextFlagsMeaning | kexts/XeBootArgs.cpp:31-41 | each flag is set exactly if some maximal comma-free stretch is blanks and tabs followed by one of its keywords, each letter in either case |
| BootArgs.TrailingBlankHidesKeyword | kexts/XeBootArgs.cpp:26-41 | a field that ends in a blank never sets a flag |
| BootArgs.TrimsFullyIff | kexts/XeBootArgs.cpp:25-41 | for every field the keyword found is the one trimming both sides would find exactly if the field does not end in a blank or is no keyword |
| BootArgs.HiddenNocs | kexts/XeBootArgs.cpp:25-41 | in the text "nocs ,verbose" only verbose is recognised |
| Mmio.BarReadInside | kexts/XeService.hpp:76-86 | which of null sentinel, range sentinel and load happens, for every pointer, length and offset, and that a load touches the dword of its offset wholly inside an aligned BAR |
| Mmio.ReadersAgree | kexts/XeService.hpp:76-86 | the service's reader and the unlengthed reader agree on all devices and histories exactly if the offset is below the BAR length or above the safe range, or there is no pointer or length |
| Mmio.BarReadsInOrder | kexts/XeService.cpp:445-448 | a list query delivers in order what the device answers to each read at its moment, or the range sentinel |
| Mmio.RawReadsEvents | kexts/XeGGTT.hpp:24-28 | unlengthed reads touch only the listed registers, and fit a BAR exactly if all of those do |
| Mmio.BarReadsEvents | kexts/XeService.hpp:76-91 | checked list reads touch only listed registers and never leave an aligned BAR |
| Forcewake.PollDetermined | kexts/ForcewakeGuard.hpp:83-107 | the answers determine the outcome: success exactly if within n polls an answer has bit 0 set and the first such is no sentinel, with one 1 ms delay per earlier answer |
| Forcewake.PollOutcome | kexts/ForcewakeGuard.hpp:83-107 | on every device polling is a list of refused answers followed by at most one odd one |
| Forcewake.WatchPoll | kexts/ForcewakeGuard.hpp:83-107 | polling takes the monitor from polling to held if acquired and to lost if not |
| Forcewake.WatchOpen | kexts/ForcewakeGuard.hpp:21-42 | constructing an enabled guard takes the monitor from rest to held or lost |
| Forcewake.RingReadAfterRequest | kexts/XeCommandStream.cpp:36-53 | in every history the monitor accepts, a ring read has a request before it and no write in between |
| Forcewake.ClearAfterGrant | kexts/ForcewakeGuard.hpp:44-48 | in every history the monitor accepts, a clear has a request and then its acknowledgement before it and no write in between |
| Forcewake.MaskedWriteBits | kexts/ForcewakeGuard.hpp:78-81 | whatever the register holds, the two handshake words set and clear bit 0 and keep the other 15 bits |
| Forcewake.RequestFollowsMonitor | kexts/ForcewakeGuard.hpp:110-117 | along any accepted history and for any reset value, the request register has bit 0 set off rest, clear at rest after a write, and as at reset if nothing was written; the other 15 bits are as at reset |
| Guard.SafeRead | kexts/ForcewakeGuard.hpp:61-65 | null sentinel, range sentinel or one load of the dword |
| Guard.ForcewakeGuard.constructor | kexts/ForcewakeGuard.hpp:21-42 | the device sees exactly the request and polls of an enabled guard, and nothing otherwise; `acquired` is the outcome |
| Guard.ForcewakeGuard.PollAck | kexts/ForcewakeGuard.hpp:88-104 | the loop performs exactly the polls and delays of the specification and sets `acquired` to its outcome |
| Guard.ForcewakeGuard.Acquire | kexts/ForcewakeGuard.hpp:75-108 | one request write, then at most 50 polls |
| Guard.ForcewakeGuard.Release | kexts/ForcewakeGuard.hpp:110-120 | one clear write |
| Guard.ForcewakeGuard.Destroy | kexts/ForcewakeGuard.hpp:44-48 | a clear write exactly if the guard was acquired |
| CommandStream.RingLogBrackets | kexts/XeCommandStream.cpp:36-82 | on every exit an enabled log is one request write, polls, ring reads, and one clear write exactly if acquired |
| CommandStream.WatchRingLog | kexts/XeCommandStream.cpp:15-82 | a guarded log takes the monitor from rest to idle if acquired and to lost if not |
| CommandStream.RingLogWrites | kexts/XeCommandStream.cpp:18-38 | the log writes to the device exactly if it has a pointer and none of the three boot flags is set |
| CommandStream.RingLogEvents | kexts/XeCommandStream.cpp:15-82 | everything a log can ever do: acknowledgement and ring reads, 1 ms delays and the two request words |
| Stream.XeCommandStream.ReadRing | kexts/XeCommandStream.cpp:51-73 | head, tail and control are read; the mode registers only if none of those was a sentinel |
| Stream.XeCommandStream.LogRcs0State | kexts/XeCommandStream.cpp:15-82 | the device sees exactly the specified log, with the guard destroyed on every exit |
| Stream.XeCommandStream.SubmitNoop | kexts/XeCommandStream.cpp:84-141 | code, contents and history for every pointer, flags and buffer; neither code nor contents depend on the device |
| Ggtt.ProbeGgtt | kexts/XeGGTT.hpp:31-65 | succeeds exactly if there is a pointer and the page-table register reads as no sentinel, and only then reads the power wells and the first fence pair |
| Service.XeService.ReadRegSafe | kexts/XeService.hpp:76-86 | value and history of the checked read |
| Service.XeService.WriteReg | kexts/XeService.hpp:93-101 | refuses, or writes one dword wholly inside an aligned BAR |
| Service.XeService.Init | kexts/XeService.cpp:34-50 | the flags become the old ones united with those of the boot text, through the real 128-byte buffer |
| Service.XeService.MapBar | kexts/XeService.cpp:98-127 | pointer, length and mapping after each success and failure exit, with failed mappings released |
| Service.XeService.ReadDevice | kexts/XeService.cpp:145-171 | the bring-up reads, in order, with the survey skipped when strict-safe |
| Service.XeService.Start | kexts/XeService.cpp:78-190 | on every exit state, history and result are those of the state machine |
| Service.XeService.Stop | kexts/XeService.cpp:285-314 | every listed buffer is released twice while it has references, the mapping once, and the state is the stopped one |
| Service.XeService.FromCookie | kexts/XeService.cpp:337-342 | the buffer at position cookie - 1, or null |
| Service.XeService.UcCreateBuffer | kexts/XeService.cpp:346-380 | state, code and cookie on every exit, including the dropped reference when the list cannot grow |
| Service.XeService.UcSubmitNoop | kexts/XeService.cpp:382-406 | state and code on every exit; the transient batch ends without references |
| Service.XeService.UcReadRegs | kexts/XeService.cpp:414-452 | exactly min(count, 10) entries, in order, equal to checked reads of the allow-list, and that count; the rest of the output is untouched, and all of it when a pointer is missing |
| Service.XeService.UcGetGTConfig | kexts/XeService.cpp:455-487 | eight checked reads in order and the count eight, or NotReady with the output untouched; slots after the eighth are never touched |
| Service.XeService.UcGetDisplayInfo | kexts/XeService.cpp:490-511 | eight checked reads in order and the count eight, or NotReady with the output untouched; slots after the eighth are never touched |
| Histories.BringUpEvents | kexts/XeService.cpp:145-170 | bring-up only reads named registers, and only 0x0, 0x4, 0x10 and 0x100 when strict-safe |
| Histories.StepEvents | kexts/XeService.cpp:78-535 | every operation only reads plain registers or is one ring log |
| Histories.RunFlags | kexts/XeBootArgs.cpp:31-41 | over any run no flag is ever lost, and strict-safe always comes with the other two restrictions |
| Histories.RunWrites | kexts/ForcewakeGuard.hpp:75-120 | over any run on any device the only register written is 0xA188, with the words 0x00010001 and 0x00010000 |
| Histories.SilencedRun | kexts/XeCommandStream.cpp:23-38 | once any of the three restrictions is set, no later operation writes |
| Histories.BootTextSilences | kexts/XeBootArgs.cpp:14-44 | a boot text that mentions noforcewake, nocs or strictsafe rules out every write in every run on every device |
| Histories.BootTextSilencesIff | kexts/XeBootArgs.cpp:14-44 | no run on any device writes exactly if the boot text mentions one of the three |
| Histories.SubmitWritesIff | kexts/XeCommandStream.cpp:98-133 | a submission that gets its batch writes to the device exactly if no restriction is set |
| Histories.StrictRun | kexts/XeService.cpp:156-171 | a strict-safe run reads only the first four registers and the user-client lists, and neither writes nor waits |
| Histories.RunProtocol | kexts/ForcewakeGuard.hpp:19-121 | every run's history obeys the handshake up to a moment of rest and has no write afterwards; that moment is the end unless forcewake has been disabled |
| Histories.RunClears | kexts/ForcewakeGuard.hpp:44-48 | over any run on any device every clear follows a request and then its acknowledgement, with no other write in between |
| Histories.RunRingReads | kexts/XeCommandStream.cpp:36-73 | over any run on any device every ring read follows a request with no write in between, unless forcewake has been disabled and nothing is written from there on |
| Histories.RunRequestRegister | kexts/ForcewakeGuard.hpp:78-117 | over any run and for any reset value, bit 0 of the request register is the last bit written, or as at reset if nothing was, and bits 1 to 15 are as at reset; bit 0 tells whether the last write was a request exactly if it was clear at reset or something was written |
| Histories.StandingForever | kexts/XeCommandStream.cpp:23-38 | a request that stands when a boot flag silences the driver is never withdrawn in any later run |
| Histories.SubmitRequestsIff | kexts/XeCommandStream.cpp:36-53 | a submission that logs the ring reads it under a request of its own exactly if forcewake is not disabled |
| Histories.ReleasedIffAcknowledged | kexts/ForcewakeGuard.hpp:44-107 | after a submission in any run, for any reset value, bits 1 to 15 are as at reset and the request bit is clear exactly if one of the device's first 50 answers has bit 0 set and the first such is no sentinel |
| Histories.SilentDeviceKeepsRequest | kexts/ForcewakeGuard.hpp:106-108 | a start and one submission on a device that never acknowledges leave the request bit set, for any reset value |
| Histories.RequestSetAtReset | kexts/ForcewakeGuard.hpp:75-81 | after a start alone, a register that came up with bit 0 set shows a request although none was written |
| Histories.RingReadWithoutRequest | kexts/XeCommandStream.cpp:40-53 | with the boot text "noforcewake" a start and one submission read the ring although nothing was ever written |
| Histories.StepDelay | kexts/ForcewakeGuard.hpp:83-107 | no operation waits more than 50 ms in total |
| Transcripts.BringUpTranscript | kexts/XeService.cpp:145-275 | exactly which registers bring-up reads, in which order and under which checks, and that strict-safe stops after four |
| Transcripts.ProbeTranscript | kexts/XeGGTT.hpp:31-65 | the probe reads 0x2020 and, unless that is an error word, the two power wells and the first fence |
| Transcripts.RingTranscript | kexts/XeCommandStream.cpp:51-73 | a ring log reads 0x2034, 0x2030 and 0x202C in order and then 0x209C and 0x2500 exactly if none of the three is an error word |
| Transcripts.HealthyRing | kexts/XeCommandStream.cpp:51-73 | on a device that never answers with an error word all five ring registers are read, in order |
| Transcripts.GuardRequestsIff | kexts/ForcewakeGuard.hpp:21-42 | a guard touches the device exactly if there is a pointer and no flag forbids it, and then writes 0x00010001 first |
| Transcripts.RefusedShape | kexts/ForcewakeGuard.hpp:88-104 | each refused poll is one read of 0xA18C and one delay of 1000 microseconds |
| Transcripts.SubmitTranscript | kexts/ForcewakeGuard.hpp:75-117 | exactly what a submission that requests forcewake does to the device: request, refusals, the answer that ended them if it came within 50, ring registers, and a clear exactly if it granted |
| Transcripts.SubmitDelay | kexts/ForcewakeGuard.hpp:85-104 | a submission waits exactly one millisecond per refusal |
| Transcripts.SilentDelay | kexts/ForcewakeGuard.hpp:85-107 | on a device that answers zero throughout a submission waits exactly 50 ms |
| Transcripts.LastPollCounts | kexts/ForcewakeGuard.hpp:85-104 | an acknowledgement at the 50th poll still leads to the clear |
| Transcripts.RunHonest | kexts/XeService.hpp:82-85 | over any run on any device every read returned what the device answered at that moment to that register |
| Answers.RegisterAnswers | kexts/XeUserClient.cpp:149-220 | selectors 3, 4 and 5 ask for their eight registers in order and deliver each answer as a number, 0xBAD0FFFF for one past the BAR, and are refused without a pointer |
| Answers.AskedAnswer | kexts/XeService.hpp:76-86 | answer i is what the device says to register i after the reads before it, or 0xBAD0FFFF past the limit |
| Answers.AllowListAnswers | kexts/XeService.cpp:424-449 | the ten allow-listed registers in order, as many as asked for |
| Answers.CreateAnswers | kexts/XeService.cpp:346-380 | state, code and cookie of a create on every exit, with the new buffer's size, references and contents |
| Answers.SubmitAnswers | kexts/XeService.cpp:382-405 | the code of a submission on every exit, and that only a success reaches the device |
| Answers.WaitAnswers | kexts/XeService.cpp:408-411 | a wait succeeds and changes nothing in every state |
| Answers.SubmitCodes | kexts/XeCommandStream.cpp:84-116 | exactly when the command stream returns each of its five codes |
| Answers.InitAnswers | kexts/XeService.cpp:34-45 | init adds exactly the flags its boot text mentions, and only if its superclass agrees |
| Answers.StartAnswers | kexts/XeService.cpp:78-190 | a start succeeds exactly if every step does, and its whole new state on every exit |
| Registry.RunKeepsInv | kexts/XeService.cpp:285-405 | in every state of every legal run the pointer is backed by a live mapping of the recorded length, one mapping is live exactly if held, and each buffer ever allocated has two references if listed and none otherwise |
| Registry.StopReleases | kexts/XeService.cpp:285-305 | in any state a run can reach, a stop takes both references of every listed buffer and leaves all else about all buffers alone |
| Registry.StopKeepsInv | kexts/XeService.cpp:285-305 | in a legal run a stop leaves every buffer ever allocated without references and its size and contents unchanged |
| Registry.RunKeepsBuffers | kexts/XeService.cpp:285-405 | over any run, restarts included, no buffer changes size or contents after the operation that made it, its references only go from two to none, and listed buffers have two |
| Registry.UnreferencedIsFinal | kexts/XeService.cpp:367-405 | over any run a buffer without references is never written, released or listed again |
| Registry.StartKeepsInv | kexts/XeService.cpp:78-190 | every exit of a start of a service that holds no mapping keeps the invariant of legal runs |
| Registry.CreateKeepsInv | kexts/XeService.cpp:346-380 | every exit of a create keeps the invariant of legal runs |
| Restarts.StartIsSafeIff | kexts/XeService.cpp:98-127 | a start keeps the pointer backed, whatever the kernel answers, exactly if no pointer was held |
| Restarts.StartLosesNothingIff | kexts/XeService.cpp:175-179 | a start leaves no referenced buffer outside the list, whatever the kernel answers, exactly if no buffer was listed |
| Restarts.RestartOrphansPointer | kexts/XeService.cpp:98-104 | a concrete pair of starts after which the pointer is set and the service holds no mapping for it |
| Restarts.FailedStart | kexts/XeService.cpp:98-179 | in any state, a failed start adds a mapping exactly if only the list allocation failed; a stop then releases that one, and one held before exactly if the start never asked for BAR0 |
| Registry.CookieBijection | kexts/XeService.cpp:337-342 | cookie c names the c-th listed buffer for c in 1..N, in creation order and one to one, every listed buffer has a cookie, and no other 64-bit value names one |
| Registry.CreateIssuesCookie | kexts/XeService.cpp:367-374 | a successful create issues a cookie that named nothing before and now names the new buffer |
| Registry.CookieIsStable | kexts/XeService.cpp:337-374 | over any run, until the next stop or start that maps BAR0, a cookie keeps naming the same buffer, whose references, size and contents do not change |
| Registry.LegalCookieIsStable | kexts/XeService.cpp:337-374 | in a legal run a cookie keeps naming the same unchanged buffer until the next stop |
| Registry.SubmitLeavesBatch | kexts/XeCommandStream.cpp:98-140 | exactly when a submission succeeds, and the page's contents dword by dword either way |
| Registry.RepliesFit | kexts/XeUserClient.cpp:11-74 | which calls are rejected with which code and no effect, and that a success returns exactly as many scalars as its row announces |
| Registry.DownAnswers | kexts/XeService.cpp:346-352 | a service that is down answers every well-formed call but wait with NotReady and does nothing |
| Registry.StaysDown | kexts/XeService.cpp:285-305 | after a stop of a service whose pointer was null or whose mapping was held, as in every legal run, and until a later start, no operation touches the device, a buffer or a mapping, and every checked read returns the null sentinel; in a legal run no mapping is then left |
| Restarts.StopSilencesIff | kexts/XeService.cpp:285-305 | in any state a stop brings the service down, and no call before a later start touches the device, exactly if the pointer was null or its mapping held |
| Restarts.StopKeepsOrphan | kexts/XeService.cpp:98-104 | after a start, a second start that gets no mapping and a stop, the pointer is still set |
| Restarts.WriteAfterStop | kexts/XeService.cpp:300-305 | a submission after those three writes to the device |
| Restarts.RunLeaks | kexts/XeService.cpp:98-127 | over any run exactly one mapping is leaked per start that overwrote a held one, and none is recovered |
| Restarts.StartKeepsCookiesIff | kexts/XeService.cpp:175-179 | a start keeps every cookie, whatever the kernel answers, exactly if no buffer was listed |
| Restarts.RestartLosesBuffer | kexts/XeService.cpp:175-179 | a start, a create and a second start leave a referenced buffer outside the list, and the cookie just issued names nothing |
| Restarts.LostForever | kexts/XeService.cpp:285-298 | no run, stops included, ever releases or lists a referenced buffer that is outside the list |
| Sizes.PageAlignIff | kexts/XeService.cpp:354-355 | the rounding gives the least covering page multiple exactly up to 0xFFFFF000, and 0 above |
| Sizes.PageAlignMask | kexts/XeService.cpp:355 | the mask expression on 32-bit words has the same characterisation |
| Sizes.ClampedSize | kexts/XeUserClient.cpp:97-104 | for every 64-bit request the rounded size is 4096 if its low 32 bits are zero, 64 MiB if they are more than that, and otherwise the least page multiple that covers them |
| Sizes.RequestedSize | kexts/XeUserClient.cpp:97-107 | for every 64-bit request a create allocates one buffer of exactly that size if there are a list and memory, and none otherwise; for one byte to 64 MiB that is the least page multiple that covers the request |
| Sizes.RunSizes | kexts/XeService.cpp:346-405 | over any run every buffer ever allocated is a page multiple between one page and 64 MiB and holds that many bytes |
| Sizes.RequestCovered | kexts/XeUserClient.cpp:97-104 | the allocation covers the request exactly if that is at most 64 MiB |
| Sizes.TimingRoundTrip | kexts/XeService.cpp:246-251 | decoding inverts packing for all sizes 1 to 65536 |
| Sizes.DecodeIsInjective | kexts/XeService.cpp:518-524 | different register words decode differently |
| Sizes.RecordedMode | kexts/xe_hw_offsets.hpp:359-381 | the recorded words decode to the documented mode |
| Bounds.BringUpFitsIff | kexts/XeService.cpp:115-170 | bring-up stays inside an aligned BAR on every device exactly if the BAR has the needed length |
| Bounds.OneMegabyteIsShort | kexts/XeService.cpp:115-119 | with a BAR of the one-megabyte minimum some device sees an access outside it |
| Bounds.RunInBar | kexts/XeService.hpp:76-101 | if every mapping is aligned and long enough, no step of a run leaves the BAR mapped at that time unless a start of a service with a pointer was offered an empty BAR |
| Bounds.LegalKeepsLength | kexts/XeService.cpp:106-113 | in a legal run no start of a service with a pointer is offered an empty BAR |
| Bounds.RunsFitIff | kexts/XeService.cpp:98-170 | if BAR0 always has the same aligned length, no run on any device leaves it, restarts included, exactly if that length is at least what bring-up needs, or zero, which is refused |
| Bounds.ForgottenLength | kexts/XeService.cpp:106-113 | a start, a second start that is offered an empty BAR and a configuration query read 0x138108, for every length of the first mapping |
| Bounds.EmptyRestartsFitIff | kexts/XeService.hpp:76-86 | if starts may also be offered empty BARs, no run on any device leaves an aligned BAR0 exactly if it has at least 0x13810C bytes, or none |
| Independence.RunAlike | kexts/XeCommandStream.cpp:84-141 | runs of the same requests on any two devices keep equal flags, mapping, list and buffers and return equal codes and cookies |
| Replay.Perform | kexts/XeService.cpp:34-535 | one operation on the objects, from any state a run can reach, is one step of the state machine and returns its reply |
| Replay.Execute | kexts/XeService.cpp:34-535 | every run on the objects gives the replies and ends in the state that the state machine computes |
| UserClient.Arguments.PutWords | kexts/XeUserClient.cpp:164-170 | slot i below n receives word i as a number below 2^32, the others keep their values, and the count becomes n |
| UserClient.XeUserClient.SCreateBuffer | kexts/XeUserClient.cpp:78-113 | the narrowed and clamped request reaches the service, and the cookie is delivered exactly on success |
| UserClient.XeUserClient.SSubmit | kexts/XeUserClient.cpp:115-126 | state and code are those of the specified submission |
| UserClient.XeUserClient.SWait | kexts/XeUserClient.cpp:128-147 | succeeds and changes nothing |
| UserClient.XeUserClient.SReadRegs | kexts/XeUserClient.cpp:149-172 | exactly the first eight allow-listed registers, zero-extended, within the slots the table row guarantees |
| UserClient.XeUserClient.SGetGTConfig | kexts/XeUserClient.cpp:174-196 | exactly the eight configuration words, zero-extended, on success |
| UserClient.XeUserClient.SGetDisplayInfo | kexts/XeUserClient.cpp:198-220 | exactly the eight display words, zero-extended, on success |
| UserClient.XeUserClient.ExternalMethod | kexts/XeUserClient.cpp:51-74 | for every selector and argument block the service, the code and the delivered scalars are those of the state machine |

## Left out

- UserClient.XeUserClient.SWait: the clamped timeout is not modelled, because the wait is a stub that ignores it.
- Mmio.ReadersAgree: the three readers without a length have the same text in the source and are one function here, so their agreement with each other is by construction.
- Sizes.RequestedSize: sizes are unbounded integers with the 32-bit wrap written out; the mask is a subtraction of the remainder, and Sizes.PageAlignMask states the same on bit-vectors.
- UserClient.Arguments.PutWords: the scalar slots are sequences that a handler reassigns, so aliasing of a caller's input and output slots is not captured.
- Overlapping calls: the code takes no lock and two guards alive at once would clear each other's request bit; every call is atomic here.
- Registry.RunKeepsInv: is stated for runs that never start a service holding a mapping; what holds in all runs is Registry.RunKeepsBuffers, and what such a start breaks is stated exactly in Restarts and in Bounds.EmptyRestartsFitIff.
- `XeService::probe`, `newUserClient`, `XeCreateUserClient`, `initWithTask`, `clientClose`: calls into the I/O framework with no state of their own.
- `XeGGTT::getInfo` and `getFence`: no caller in the driver.
- Logging, PCI configuration reads, bus-master and memory enables: no effect on the modelled state.
- Null targets in the static handlers: the dispatcher always passes itself as target.
- GGTT programming, ring submission and firmware: absent or stubs in the source.
- `userspace/xectl.c` and `MacKernelSDK/`: command-line plumbing and vendored headers.
