# S22 bring-up: verified models

This project models six programs of the repository and proves what they are for.

**The init program** (`Machine`, `Pid1`, `BootCounter`, `LogText`, `FatalRecord`, `ProcText`, `Decimal`, `CrashLoop`).
PID 1 of a crash-looping boot must leave truthful evidence on a device while every system call may misbehave.
`Pid1.Init` is one object with the program's static globals. The kernel is an adversary: every system call, and every
point between two steps at which a signal matters, takes the next event of a constant script, a reply of any kind or a
fatal signal. Where the script ends the machine stops, so a contract proved for every script is proved for a crash at
every step; `Excused` says that a run stops for no other reason than that or a signal, and every operation that can be
cut short promises it, up to `Pid1.Init.Boot`. `Call` says what the program does with the reply it gets: drops it,
takes anything but success as failure, asks again on EINTR, or polls. "Without faults" means that no call met a reply
it treats as a failure: `Tallied` counts the events taken so far by the calls that took them, and `Machine.TallyMeans`
says when its counts are zero. A step is an event that is not a repeated EINTR; every operation up to the reboot
request has a bound on its steps, so a boot that is let run must come to that request. Texts the program writes are
read back by functions of their own (`AttemptRead`, `FieldRead`, `Dated`, `Names`). Inside the object `mounted` is the
truth about the device and `cacheOk`, `cacheMounted` are the program's flags; a write while the device is not mounted
would land in `ramLog`, which no boot ever changes. Files know how many of their bytes are durable; a stop keeps those
and may turn the rest into anything. `CrashLoop.BootRepeatedly` runs boot after boot on what the previous one left.
The mount block ends in one line, whose wording (`OutcomeText`) is exact; `Backs` says what it claims of the device.
Uptime has two parts, coded sleep and latency (`lag`), the sum of what the events took; time bounds speak about the
first, and about both when no event takes time. The first reboot call comes by start + 195 s of coded sleep: nine
modules at 20 s and the 15 s partition wait. What /proc/partitions holds at each poll is a parameter, and so is the
command line.

**The stability observer** (`StabilityMarker`, `Stability`, `StabilityRun`). It samples a phone for up to 600 s and
finalises through a durable marker. The clock is real-valued. What the outside does is a constant endless function,
one `Moment` a step: a delay, a query's duration and answer, whether a receipt is saved. `Lag` is the sum of the
delays of the moments taken. The theorems' hypotheses speak of that function or of the moments taken: `Punctual` (no
delays), `Steady` (also a clock that is always read, and no reconnect in the middle of a reading), `Healthy` (every
moment taken was good but for one transport gap, and every judged sample truthful), `Favourable` (punctual, a true
clock, and good throughout), `Tolerable` (the same but for one gap outside a reading). A sample is truthful when the
phone's clock ran at the host's rate and was read within 15 s of the sample's start. The marker store can fail, lose
an update without a word, persist it and still report an error, tear it, or show a foreign marker; an `Honest` one
does only the first and third.

**Four smaller pieces.** `Listing` drains a child's two pipes within bounds. `NvmProfile` validates the Bluetooth NVM
image and picks the transport. `F2fsTree` parses an indented tree listing; its printer, inverse to the regular
expression, is a specification. `Framebuffer` reads the visible window of a DRM framebuffer.

Where the code and its comments differ, the model follows the code:

- The comment at `initramfs/cinit13.c:970-980` says no gap is left between a durable banner and enabled logging.
  A signal can still arrive between the fsync and the assignment: `Pid1.Init.EnableLogging` states that one in
  this window finds logging disabled and leaves no record on the device.
- A queue slot keeps a line whole exactly when it has at most 159 bytes (`LogText.SlotKeeps`), so a longer line loses
  its newline; the command-line dump is proved uncut.
- A run that is refused can leave a marker that says success, since a refusal to trust the marker also keeps the
  guard from rewriting it (`tools/hardware/audio-coherent-recovery-reboot-once.py:626-631`): one bad answer while it is
  read back is enough. `StabilityMarker.Left` is the exact condition on the answers of an honest store, and
  `StabilityMarker.LeftInTime` spells it out for a run in time.
- `F2fsTree`'s round trip holds exactly for distinct siblings (`F2fsTree.FaithfulExactly`) and, from text, for names
  that hold no inode mark (`F2fsTree.ReadBackExactly`): a repeated sibling overwrites the earlier entry, and a
  name is cut at its first mark.
- A listing whose `select` call fails can report untruncated streams although output was lost
  (`tools/hardware/audio-control-readiness.py:343-371`). `Listing.Run` states the exact condition (`Trustworthy`): an
  untruncated stream was retained whole if and only if draining was not cut short, or its count is complete anyway.
  Draining is cut short exactly by a failed setup or by a `select` that was made and failed, and the report is then
  never available.

## Model

| member | source | states |
|---|---|---|
| BootCounter.TrustedExactly | initramfs/cinit13.c:909-930 | a stored counter is trusted, with value n, if and only if it is 1 to 7 digits with value n below 9999999 and at most one final newline |
| BootCounter.PrintedIsTrusted | initramfs/cinit13.c:922-937 | every number below 9999999, once printed, is read back as itself |
| BootCounter.LastNumberIsFinal | initramfs/cinit13.c:913-929 | the largest number ever written, 9999999, is one the next boot refuses to count on from |
| BootCounter.SuccessorIs | initramfs/cinit13.c:880-937 | the first boot is number 1, a later one follows the number its file spells, and untrusted content gives none |
| BootCounter.AttemptCounts | initramfs/cinit13.c:880-948 | one boot, wherever it stops, moves the counter by at most one, writes only the printed successor, and reports only what it stored |
| BootCounter.ReportsIncrease | initramfs/cinit13.c:880-948 | over any run of boots the reported attempt numbers strictly increase and never exceed 9999999 |
| BootCounter.NeverPartial | initramfs/cinit13.c:880-948 | after any run of boots the file holds its original content or exactly the print of a larger number: never a fragment, never smaller |
| BootCounter.UntrustedIsUntouched | initramfs/cinit13.c:865-879 | content the code does not trust survives every run of boots unchanged, and no number is reported over it |
| BootCounter.RunRanks | initramfs/cinit13.c:880-948 | between any two boots the counter grows by at most the number of boots |
| Pid1.Init.ReadAll | initramfs/cinit13.c:901-907 | for any short reads, EINTRs and errors: what is reported as end of file is the whole file, and anything else is marked as full or as an error; EINTR alone never loses the end; besides repeated EINTR it makes at most as many calls as the buffer has bytes |
| Pid1.Init.ParseCounter | initramfs/cinit13.c:909-930 | the digit loop, the length test and the bound compute the trusted number of the text |
| Pid1.Init.ReadCounter | initramfs/cinit13.c:882-931 | for every read schedule the value is unavailable or the number the whole file stands for; without faults, a missing file being none, it is that number; an open refused for any other reason makes it unavailable; only a signal or the end of the machine keeps it from answering |
| Pid1.Init.WriteTmp | initramfs/cinit13.c:934-945 | success means the temporary file is exactly the text and durable, whatever was there before; the counter file is untouched |
| Pid1.Init.WriteCounter | initramfs/cinit13.c:932-947 | the counter keeps its content or is the durable print of the candidate, and the number is reported only then |
| Pid1.Init.CountBoot | initramfs/cinit13.c:880-948 | the whole block at any fault or stop is one permitted counter attempt; without faults the successor is stored and reported; it stops early only at the end of the machine or a signal |
| CrashLoop.BootRepeatedly | initramfs/cinit13.c:599-1166 | any number of boots, each with its own faults, signals and stopping point: the counter history is a run, reported numbers strictly increase, and the final log still holds what every boot found and, after it, what its mount report claims: banner, queued lines, or both, and the number read from that banner is the one the boot reported; a boot that is let run reaches its reboot, and one that reaches it without a report has left the log alone |
| CrashLoop.EvidenceKept | initramfs/cinit13.c:272-282 | text that is on the device before a boot, or becomes durable there during it, is there after its stop |
| CrashLoop.BootOnce | initramfs/cinit13.c:599-1166 | one boot and its end: the counter makes one permitted attempt, and the log keeps what it held and what the report of the mount block, itself the next line of the log, claims is there; a claimed banner reads as the boot's number |
| CrashLoop.BacksAfterStop | initramfs/cinit13.c:981-1010 | what a mount report claims of the device when the boot stops is true of it after the stop |
| CrashLoop.LoseTail | initramfs/cinit13.c:880-948 | a stop keeps the durable prefix of a file and loses nothing of a synced file |
| Pid1.Init.WriteFull | initramfs/cinit13.c:206-218 | for any short writes, EINTRs and errors: the file grows by a prefix of the text, and success is reported if and only if it is all of it; EINTR alone never makes it fail; besides repeated EINTR it makes at most one call a byte |
| Pid1.Init.AppendLog | initramfs/cinit13.c:253-261 | one append to the device log; success means the whole text is there and durable |
| Pid1.Init.LogToFiles | initramfs/cinit13.c:248-262 | either the device log grew by the whole message and is durable, or logging to it is switched off after a prefix; that happens only after a failed open, write or fsync of the log, never for the kernel log |
| Pid1.Init.LogLine | initramfs/cinit13.c:247-268 | after each line the device log grew by exactly the message and stays trusted, or, after a failure of the log itself, trust is dropped after a prefix of it and the message cut to 159 bytes is queued while a slot is free; a stop leaves at most a prefix and what dying handlers add |
| Pid1.Init.Say | initramfs/cinit13.c:284-291 | the logged line is the uptime prefix and the text, cut to the formatting buffer; the device log grew by exactly it and is durable, or it was queued while a slot was free |
| Pid1.Init.WriteQueue | initramfs/cinit13.c:275-278 | success means the file grew by all queued lines in order; a failed line does not stop the rest |
| Pid1.Init.FlushEarlyLog | initramfs/cinit13.c:272-282 | a confirmed flush means the queue is in the file, in order, and durable |
| Pid1.Init.WriteDurably | initramfs/cinit13.c:985-988 | success means the whole text was appended and is durable; failure leaves only a prefix |
| Pid1.Init.WriteBanner | initramfs/cinit13.c:981-991 | logging to the device is enabled exactly when the banner is whole and durable, and the device is mounted then; a failed banner leaves a prefix of it |
| Pid1.Init.WriteEvidence | initramfs/cinit13.c:981-1010 | banner, then queue: the reported outcome says exactly which of the two reached the device, each claim is true of the file, and logging is enabled exactly if one did |
| Pid1.Init.FlushAndEnable | initramfs/cinit13.c:992-998 | logging is enabled exactly when the whole queue reached the device |
| Pid1.Init.OpenEvidence | initramfs/cinit13.c:880-1010 | the same together with the counter: the number read from the banner in the log is the stored one, or the banner names none; without faults everything is safe and the number is the successor |
| Pid1.Init.MountStage | initramfs/cinit13.c:857-1015 | the mount block at any fault or stop: a permitted counter attempt, the log only grown, and exactly one line at its end, which states its outcome; what that outcome claims is on the device and durable; without faults it is that all is safe |
| Pid1.Init.SayOutcome | initramfs/cinit13.c:995-1014 | the line has the wording of the outcome, and what it claims stays true of the device |
| Pid1.OutcomeReads | initramfs/cinit13.c:995-1014 | each outcome has the wording that names what was written and what failed |
| Pid1.OutcomesDiffer | initramfs/cinit13.c:995-1014 | no report reads as two outcomes |
| Pid1.BacksStill | initramfs/cinit13.c:981-1010 | what a report claims stays true while the log grows |
| LogText.BannerFits | initramfs/cinit13.c:949-954 | every banner with a number of at most 7 digits fits its 96-byte buffer |
| LogText.BannerReads | initramfs/cinit13.c:949-954 | the number between "#" and " (" in a banner is the attempt it was made for, and there is none when it was made for none |
| Pid1.BannerIsRead | initramfs/cinit13.c:949-991 | where a mount report claims the banner, the number read from the log there is the boot's |
| LogText.UptimeReads | initramfs/cinit13.c:284-291 | a line reads back as its time, to the millisecond, and its text |
| LogText.RecordIsNumbered | initramfs/cinit13.c:309-317 | the number in a dump record is its place, from zero |
| LogText.ConcatSnoc | initramfs/cinit13.c:275-278 | queued lines come out in the order they went in |
| LogText.LosslessExactly | initramfs/cinit13.c:304-321 | stripping numbering and newline from the dump records gives the command line back if and only if it holds no NUL |
| LogText.ReadBack | initramfs/cinit13.c:304-321 | the same for every prefix of the records: a NUL loses text, nothing else does |
| LogText.ChunkBack | initramfs/cinit13.c:309-317 | one record gives its chunk back exactly when the chunk holds no NUL |
| LogText.RecordsFit | initramfs/cinit13.c:305-318 | no record of a command line of up to 4095 bytes is cut by a 160-byte slot |
| LogText.DumpSurvivesQueue | initramfs/cinit13.c:166-168 | such a dump takes at most 35 slots and comes out of the queue as it was logged |
| LogText.SlotKeeps | initramfs/cinit13.c:166-168 | a queue slot keeps a line whole if and only if the line has at most 159 bytes |
| LogText.DumpReadsBack | initramfs/cinit13.c:304-321 | where a log holds the dump of a NUL-free command line of up to 4095 bytes, reassembling the queue slots from there gives the command line back |
| Pid1.Init.LogChunk | initramfs/cinit13.c:309-320 | each turn logs the record of the next chunk and advances by its whole length |
| Pid1.Init.LogChunks | initramfs/cinit13.c:304-321 | the loop logs exactly the records of the text, at most 35 of them |
| Pid1.Init.LogCmdlineChunked | initramfs/cinit13.c:304-325 | the records are logged whole; only a truncated read adds one more line |
| Pid1.Init.DumpInput | initramfs/cinit13.c:735-745 | end of file leads to the complete records and nothing else; at most 36 lines in every case |
| Pid1.Init.DumpCmdline | initramfs/cinit13.c:703-749 | without faults a command line of 1 to 4095 bytes is logged completely; at most 36 lines on every fault path |
| Pid1.Init.BeforeMount | initramfs/cinit13.c:600-856 | at most 51 of the 96 queue slots are used before the mount on every fault path, within 75 s of coded sleep; the dump starts at the fourth line; the mount is tried only after a poll read a listing that held the partition as a token, and without faults if and only if one of the 75 polled listings holds it |
| Pid1.Init.FirstHalf | initramfs/cinit13.c:600-1018 | the report of the mount block comes right after the 13 to 51 lines logged before it and is true of the device: where it says all is safe, banner and all those lines are there, in order, durably, and the banner reads as the boot's number; with no report nothing was written; the signal handlers are in place; without faults the watchdog is open, the lines include the command-line dump, and all is reported safe, with logging on, if and only if the partition shows up in listings that fit their buffer; within 75 s of coded sleep and a fixed number of steps |
| Pid1.Init.Take | initramfs/cinit13.c:555-597 | whatever the kernel or a signal does at a step, only the device log may have grown, and only while logging to it is enabled; a signal to PID 1 while it is enabled, if nothing fails afterwards, leaves exactly the record of that signal and second at the end of the log, durable |
| Pid1.Init.FatalSigHandler | initramfs/cinit13.c:555-597 | a process other than PID 1 leaves no trace; PID 1 appends exactly the fatal record while the device is mounted, and without faults it is durable; on a stop the log grew only by prefixes of fatal records, one per nested handler |
| Machine.TallyMeans | initramfs/cinit13.c:206-218 | the fault, latency and signal counts of a boot are zero exactly when no call met a reply it treats as a failure, no event took time, or none was a signal; and without signals the events taken are at most the steps and the EINTR replies |
| Machine.EasyScript | initramfs/cinit13.c:599-1166 | scripts without faults exist at any length: one whose calls all return a positive number |
| Pid1.Init.ModprobeChild | initramfs/cinit13.c:418-440 | no interleaving of fork, disposition resets and signals lets the child write a record |
| Pid1.Init.EnableLogging | initramfs/cinit13.c:987 | the window between the durable banner and the enabled flag: a signal or stop in it leaves logging disabled and the files untouched; otherwise logging is enabled |
| Pid1.Init.EnableAndClose | initramfs/cinit13.c:981-991 | logging is enabled, before the close, exactly when the banner reached the device |
| Pid1.Init.MountCache | initramfs/cinit13.c:857-863 | owning the mount is recorded only for a mounted device; no file changes |
| Pid1.Init.Shutdown | initramfs/cinit13.c:1105-1141 | logging is disabled before the device can go away, the mount flags agree with the device whether or not umount succeeds, without faults it is unmounted, and only a signal or the end of the machine cuts it short |
| Pid1.Init.Unmount | initramfs/cinit13.c:1121-1138 | with logging disabled no signal around umount writes anything, and the mount flags agree with the device |
| FatalRecord.U2a | initramfs/cinit13.c:527-535 | writes the decimal text of any 64-bit value and touches no other byte |
| FatalRecord.DigitsBackwards | initramfs/cinit13.c:528-532 | the scratch buffer holds the digits reversed, at most 20 of its 24 bytes |
| FatalRecord.CopyBackwards | initramfs/cinit13.c:533 | the copied digits come out in reading order, and the bytes around them stay |
| FatalRecord.RecordFits | initramfs/cinit13.c:570-582 | the record fits its 64 bytes for every 64-bit uptime and every signal number |
| FatalRecord.RecordNames | initramfs/cinit13.c:570-582 | a record names exactly the seconds and the signal it was made for |
| Machine.SecondsAre | initramfs/cinit13.c:570-575 | the time in a record is the uptime in whole seconds |
| FatalRecord.Assemble | initramfs/cinit13.c:570-582 | the assembled buffer is the record text |
| Decimal.PrintParses | initramfs/cinit13.c:527-535 | the printed text has no leading zero and denotes the number |
| Decimal.PrintIsOnlyText | initramfs/cinit13.c:527-535 | no other text without leading zeros denotes that number |
| Decimal.DigitsInOrder | initramfs/cinit13.c:527-535 | the digits are 0 to 9 in order, each worth its place among them |
| Decimal.ValueSplits | initramfs/cinit13.c:527-535 | digits stand for tens, hundreds and so on from the right |
| ProcText.Normalize | initramfs/cinit13.c:329-333 | the buffer holds the kernel spelling of the name, cut to the buffer and terminated |
| ProcText.KernelNameSplits | initramfs/cinit13.c:329-333 | each hyphen becomes one underscore and the text between hyphens stays |
| ProcText.LineStep | initramfs/cinit13.c:363-369 | a name is listed from here on if it is this line's first field or listed after the newline |
| ProcText.ScanModules | initramfs/cinit13.c:363-370 | the pointer walk answers yes if and only if some line's first field is the name |
| Pid1.Init.ModulePresent | initramfs/cinit13.c:340-371 | for any read schedule that reaches end of file: present if and only if some line's first field is the name with hyphens as underscores |
| ProcText.SkipIsSafe | initramfs/cinit13.c:506-511 | after a match with bad boundaries no token starts inside that match, so skipping it whole loses nothing |
| ProcText.TokenSomewhere | initramfs/cinit13.c:483-485 | a name is among the blank-separated tokens if and only if it matches somewhere with both boundaries clean |
| ProcText.ScanPartitions | initramfs/cinit13.c:504-512 | the strstr loop answers yes if and only if the name is one of the text's tokens |
| Pid1.Init.PartitionListed | initramfs/cinit13.c:490-514 | the answer is exact for what was read, and without faults that is the whole listing |
| Pid1.Init.FindPartition | initramfs/cinit13.c:853-857 | a yes comes with the listing read at one of 75 polls that holds sda33 as a token, a no only after 15 s; without faults yes if and only if one of those listings holds it |
| Pid1.Init.WaitForPartition | initramfs/cinit13.c:486-518 | a yes comes with what was read of the listing at that poll and holds the name as a token; a no only after the whole time; without faults yes if and only if a polled listing shows the name |
| Pid1.Init.WaitForChild | initramfs/cinit13.c:448-460 | the wait ends within 20 s of coded sleep, keeps the watchdog fed, and ends as the replies to waitpid say: exited on a positive one, failed on an error, given up on zero after 20 s; without faults, a child still running being none, it is reaped or given up |
| Pid1.Init.Modprobe | initramfs/cinit13.c:403-474 | exactly two lines, within 20 s of coded sleep per module; the second says how the wait ended, as the replies to waitpid do, or that there was no child; without faults it tells whether /proc/modules lists the module |
| Pid1.ResultReads | initramfs/cinit13.c:461-473 | the result line reads back as an exit with its code or as a timeout |
| Pid1.TellsOneAnswer | initramfs/cinit13.c:461-473 | no result line can be read as both present and absent |
| Pid1.ResultEnds | initramfs/cinit13.c:461-473 | the message buffer never cuts the answer off a result line |
| Pid1.Init.Heartbeat | initramfs/cinit13.c:1079-1083 | ends after 45 s of uptime and, latency aside, by 46 s or at once; the watchdog is fed every second; at most 45 turns |
| Pid1.Init.RebootForever | initramfs/cinit13.c:1151-1165 | the restart is requested at once and it never returns; only a signal or the end of the machine stops it, and the watchdog stays fed |
| Pid1.Init.RequestRestart | initramfs/cinit13.c:1151-1162 | the request is repeated until it is granted, with at most 15 s of coded sleep after each refusal |
| Pid1.Init.PetWatchdog | initramfs/cinit13.c:228-237 | an open watchdog is written to now, which takes one call, and nothing else changes |
| Pid1.Init.WriteOptions | initramfs/cinit13.c:775-803 | success is claimed only for a file that holds exactly the option, removal only for a file that is gone; without faults success; only the options file changes |
| Pid1.Init.SayOptions | initramfs/cinit13.c:775-803 | the logged line is the wording of that claim, and the claim is true of the files |
| Pid1.OptionsReads | initramfs/cinit13.c:781-801 | each claim has the wording that says what happened to the write and to the removal |
| Pid1.OptionsDiffer | initramfs/cinit13.c:781-801 | no options line reads as two claims |
| Pid1.Init.StartWatchdog | initramfs/cinit13.c:807-817 | the watchdog is open afterwards exactly if the open was answered by success, and it was written to at that instant |
| Pid1.Init.OpenWatchdog | initramfs/cinit13.c:807-849 | open exactly if the open succeeded, with the first write behind it; four lines at most |
| Pid1.Init.LoadWatchdog | initramfs/cinit13.c:755-849 | nine lines at most and 40 s of coded sleep; without faults the watchdog is open at the end; besides the logs only the options file changes |
| Pid1.Init.SecondHalf | initramfs/cinit13.c:1036-1165 | it never returns, and only a signal or the end of the machine stops it; the first reboot call comes after 45 s of uptime and, latency aside, by 46 s or 120 s after this point, with logging disabled, an open watchdog still open and, without faults, the device unmounted; without that call it has stopped within that time and a fixed number of steps |
| Pid1.Init.Boot | initramfs/cinit13.c:599-1166 | one boot under any replies, signals and stops: on every script without signals that is longer than BOOT_STEPS besides its EINTR replies the reboot is requested, whatever faults it holds; the request comes after 45 s and, latency aside, by max(46 s, start + 195 s), and a boot that stops before it stops within that time; logging enabled implies mounted, nothing lands under a bare /cache, the log only grows, the counter makes one permitted attempt, an open watchdog stays fed; the mount report is in the log and true of the device, a claimed banner reads as the boot's number, and without a report nothing was written; without faults the watchdog is open at the request, all is reported safe if and only if the partition shows up, the successor is reported and the dump reads back |
| Stability.TruthfulSamplesPass | tools/hardware/audio-coherent-recovery-reboot-once.py:43-48 | samples of a truthful clock 60 s apart always satisfy the 15 s window, and 195 s apart always span 180 s |
| Stability.TruthfulIsAccepted | tools/hardware/audio-coherent-recovery-reboot-once.py:1253-1283 | a truthful clock is never blamed and a ready sample never turned away, except for coming too early |
| Stability.AssessExactly | tools/hardware/audio-coherent-recovery-reboot-once.py:1003-1061 | by the fields of the two responses: both of the expected boot, no fault, accepted, same build, pinned target is what lets a sample pass; every other case has the terminal category of the first check that fails |
| Stability.ValidUptimeExactly | tools/hardware/audio-coherent-recovery-reboot-once.py:952-964 | an uptime is valid if and only if it is a number from 0 to ten million |
| Stability.JudgeMeans | tools/hardware/audio-coherent-recovery-reboot-once.py:1253-1283 | a sample is accepted if and only if its responses show a sound, ready phone on the expected boot, up for 180 s, and it agrees with the sample before it; blaming the clock means a ready sample that does not |
| Stability.Observer.SleepUntil | tools/hardware/audio-coherent-recovery-reboot-once.py:1307-1311 | wakes at the target or the deadline and asks for no sleep beyond either |
| Stability.Observer.BoundedQuery | tools/hardware/audio-coherent-recovery-reboot-once.py:1193-1219 | the answer is what a moment of this query was asked and said, within the cap, and each reconnect first paused 2 s; at most one attempt and one more per reconnect of the run, a transport gap only when no reconnect is left, and failure only after a broken answer or a second gap; a timeout only past the deadline |
| Stability.Observer.Settle | tools/hardware/audio-coherent-recovery-reboot-once.py:1253-1297 | a sample joins the accepted ones exactly when it was judged ready and its receipt saved; a terminal end is the judgement's; if every judged sample was truthful the clock is blamed, and on a healthy run a sample turned away, only for coming too early |
| Stability.Observer.Deserved | tools/hardware/audio-coherent-recovery-reboot-once.py:1253-1283 | why a clock is blamed or a healthy sample turned away: a false reading, the uptime gate, or the spacing |
| Stability.Observer.CollectPair | tools/hardware/audio-coherent-recovery-reboot-once.py:1244-1297 | one sample takes two fresh queries and one saved receipt, at most 45 s, plus 32 s and one attempt for the reconnect; an accepted sample consists of what these two queries answered |
| Stability.Observer.QueryPair | tools/hardware/audio-coherent-recovery-reboot-once.py:1244-1252 | both responses of a sample were heard, one after the other, after it began, each query waiting for its answer until 15 s and 30 s or the deadline; with no delays, a clock that is read, and no reconnect in the reading the sample is truthful |
| Stability.Observer.Attempt | tools/hardware/audio-coherent-recovery-reboot-once.py:1193-1212 | one attempt stays within its cap and before the deadline, and answers what was heard; a gap or an error needs an unanswered moment |
| Stability.ReadInTime | tools/hardware/audio-coherent-recovery-reboot-once.py:1244-1252 | a sample whose clock was really read within 15 s of its start is truthful |
| Stability.GoodSample | tools/hardware/audio-coherent-recovery-reboot-once.py:1253-1283 | a sample made of two healthy answers passes every check but the gate and the window |
| Stability.PunctualMeans | tools/hardware/audio-coherent-recovery-reboot-once.py:1193-1219 | if no step is delayed, all time is the protocol's own |
| Stability.Observer.Probe | tools/hardware/audio-coherent-recovery-reboot-once.py:1306-1334 | one probe costs at most 3 s past its target, plus 5 s for the reconnect; it passes only on an answer heard since, of this boot and at or above the gate, with a saved receipt, its query waiting 3 s, and on a healthy run always does once the phone is up long enough |
| Stability.Observer.Probes | tools/hardware/audio-coherent-recovery-reboot-once.py:1303-1338 | the uptime gate takes at most 183 s and 13 probes plus the reconnect; a healthy phone that had booted when it began passes it, and passing means an answer heard since, of this boot and at or above the gate, with a saved receipt |
| Stability.Observer.FirstSample | tools/hardware/audio-coherent-recovery-reboot-once.py:1340-1369 | one reading, or two of which the second begins at least 15 s after the answers of the first; the accepted sample started no later than the recorded instant |
| Stability.Observer.LaterSample | tools/hardware/audio-coherent-recovery-reboot-once.py:1371-1396 | a later sample starts no earlier than its target and at least 60 s after the one before |
| Stability.Observer.LaterSamples | tools/hardware/audio-coherent-recovery-reboot-once.py:1368-1396 | three samples at least 60 s apart, 195 s from first to last, within 240 s of the first |
| StabilityRun.Sampling | tools/hardware/audio-coherent-recovery-reboot-once.py:1303-1410 | success certifies a stable boot; at most 515 s of its own time and 22 query attempts; at least four saved receipts; a healthy run fails only by timeout; the clock is blamed only if some judged sample was not truthful |
| StabilityRun.SampleThrice | tools/hardware/audio-coherent-recovery-reboot-once.py:1340-1410 | the same for the three samples after the gate: at most 300 s and 8 queries, plus 32 s and one query for the reconnect |
| StabilityRun.FinalChecks | tools/hardware/audio-coherent-recovery-reboot-once.py:1398-1410 | passing means a stable boot within the deadline; the span check never fails a truthful clock |
| StabilityRun.PersistResult | tools/hardware/audio-coherent-recovery-reboot-once.py:1453-1460 | passing means the result was saved and digested before the deadline |
| StabilityRun.CompleteMarker | tools/hardware/audio-coherent-recovery-reboot-once.py:1461-1469 | only pending markers are ever overwritten; completion starts before the deadline, and in a sound store leaves the completed marker with the digest; an honest store keeps it although completion failed exactly if the update took effect and reported an error |
| StabilityRun.ReadCompleted | tools/hardware/audio-coherent-recovery-reboot-once.py:1489-1495 | success means the stored marker is this operation's completed success and names the receipt by path and digest |
| StabilityRun.Confirm | tools/hardware/audio-coherent-recovery-reboot-once.py:1470-1507 | accepted only before the deadline and after reading the marker back; a timeout leaves the late UNKNOWN marker; with an honest store a refusal leaves the completed marker only after a bad read-back, or late and after a failed taking back, and a bad first read-back always does |
| StabilityRun.Finish | tools/hardware/audio-coherent-recovery-reboot-once.py:1453-1536 | acceptance needs the operation, a timely end and a bound marker; without an operation the result stays provisional; the store answers under which a refusal leaves a binding marker |
| StabilityRun.ObserveStability | tools/hardware/audio-coherent-recovery-reboot-once.py:1070-1536 | whole runs: acceptance certifies three samples made of heard answers in order, each with both responses of the expected boot, no fault, the accepted image and build on the pinned target, ready and up for 180 s, no unsound sample judged in between, the spacing, the span, one reconnect, timeliness and the marker; the run takes 515 s besides the delays, so on a punctual outside the 600 s deadline never fires; a blamed clock means a judged sample that was not truthful, and never a steady outside; a healthy run, even one that needed its reconnect, is accepted or times out, and on a favourable or tolerable outside with a sound store it is always accepted; an honest store keeps a binding marker of a refused run only if its answers satisfy Left, and of a healthy run in time exactly then |
| StabilityRun.LingersEnds | tools/hardware/audio-coherent-recovery-reboot-once.py:1461-1507 | the answers after the completion, seen from the check of the pending marker |
| StabilityRun.StaysHealthy | tools/hardware/audio-coherent-recovery-reboot-once.py:1070-1536 | an outside whose every moment is good, prompt and read from a true clock, but for at most one transport gap outside a reading, makes a healthy run |
| StabilityMarker.Operation.Begin | tools/hardware/device-trial-guard.py:140-176 | an existing marker file is never touched; in a sound store the new file holds the pending marker |
| StabilityMarker.Operation.Rewrite | tools/hardware/device-trial-guard.py:191-195 | what a failed, lost or torn write can leave: the old marker, the new one or garbage |
| StabilityMarker.Operation.Update | tools/hardware/device-trial-guard.py:186-195 | in a sound store the marker is the new one; otherwise the old one, the new one or garbage |
| StabilityMarker.Operation.CompleteWith | tools/hardware/device-trial-guard.py:197-213 | in a sound store the completed marker with the digest is in place; a failure leaves the operation unfinished |
| StabilityMarker.Operation.Exit | tools/hardware/device-trial-guard.py:296-308 | a finished or unstarted operation leaves the marker alone; otherwise a sound store ends with UNKNOWN |
| StabilityMarker.Operation.ReadOwn | tools/hardware/audio-coherent-recovery-reboot-once.py:621-655 | returns only a marker that is stored and carries this operation's names and, unless completed, its process; a refusal stops the context from rewriting it |
| StabilityMarker.Operation.RequirePending | tools/hardware/audio-coherent-recovery-reboot-once.py:662-679 | passes exactly pending markers; a refusal ends the operation |
| StabilityMarker.Operation.TryDemote | tools/hardware/audio-coherent-recovery-reboot-once.py:727-747 | overwrites only the completed marker or its late UNKNOWN form, and succeeds only after reading UNKNOWN back |
| StabilityMarker.Operation.Demote | tools/hardware/audio-coherent-recovery-reboot-once.py:682-753 | a normal return means the UNKNOWN marker that records the late success was read back; under lost, torn or persisted-but-failing updates nothing else is ever overwritten, and it gives up only after two faults; with an honest store the completed marker stays exactly if its own first check fails or neither attempt gets to its update |
| StabilityMarker.Operation.LateMarkerCarries | tools/hardware/audio-coherent-recovery-reboot-once.py:700-722 | the UNKNOWN marker names the operation, its process and the receipt, and keeps the completed marker |
| StabilityMarker.BindsExactly | tools/hardware/audio-coherent-recovery-reboot-once.py:666-679 | a marker binds a receipt if and only if it is a completed success with its path and digest |
| StabilityMarker.ReachesExactly | tools/hardware/audio-coherent-recovery-reboot-once.py:621-655 | the answers of the store, one by one |
| StabilityMarker.LeftInTime | tools/hardware/audio-coherent-recovery-reboot-once.py:626-679 | in time, a refused run leaves its success in place exactly if it was completed and one of the three answers that read it back is bad, or the completion took effect with an error and the update on leaving did not |
| StabilityMarker.KeptIs | tools/hardware/audio-coherent-recovery-reboot-once.py:682-753 | the same from the check of the pending marker on, for a finished operation and for one whose last update is still to come |
| StabilityMarker.FailsAfter | tools/hardware/audio-coherent-recovery-reboot-once.py:727-747 | a failed attempt uses up the answers to the first bad one |
| Listing.RetainChunk | tools/hardware/audio-control-readiness.py:294-297 | keeping what still fits leaves the buffer a prefix of everything read, of length min(read, limit) |
| Listing.Reported | tools/hardware/audio-control-readiness.py:312 | select reports registered streams only, each once |
| Listing.ReadyIsReported | tools/hardware/audio-control-readiness.py:312 | no registered stream that is ready goes unreported |
| Listing.Taken | tools/hardware/audio-control-readiness.py:279-291 | a read takes at most one 8192-byte chunk and is empty exactly at end of file |
| Listing.Listing.Retain | tools/hardware/audio-control-readiness.py:293-297 | count, buffer and truncation flag after a chunk are those of all bytes read so far |
| Listing.Listing.ReadOnce | tools/hardware/audio-control-readiness.py:276-297 | one event advances exactly its own stream: a chunk, end of file, nothing, or abandonment with an error |
| Listing.Listing.Drain | tools/hardware/audio-control-readiness.py:275-297 | every reported stream is served once and every other stream stays as it was |
| Listing.Listing.Watch | tools/hardware/audio-control-readiness.py:304-314 | ends with both pipes at end of file and the child gone, with a timeout that some turn showed, or with a failed read or select, and it is interrupted exactly if a select it made failed; streams are lost only to failed reads |
| Listing.Listing.SelectAndDrain | tools/hardware/audio-control-readiness.py:312-315 | every reported stream is served once, every other one stays, and only a failed select or a failed read can cost a stream |
| Listing.Listing.Abandon | tools/hardware/audio-control-readiness.py:326-328 | a stream given up before its end of file is marked truncated |
| Listing.Listing.CleanUp | tools/hardware/audio-control-readiness.py:316-328 | leaves no stream registered unless a select fails; it is interrupted exactly if a select it made failed; without read failures a stream is given up only past the cleanup deadline |
| Listing.Listing.GiveUp | tools/hardware/audio-control-readiness.py:326-328 | exactly the still registered streams are given up |
| Listing.Listing.Wait | tools/hardware/audio-control-readiness.py:331-342 | an exit status already known stays; no status means the cleanup was not clean |
| Listing.Listing.Settle | tools/hardware/audio-control-readiness.py:316-372 | a clean end of the main loop stays clean; every failure becomes a capture error; draining was cut short exactly if it did not begin or a select that was made failed |
| Listing.Collect | tools/hardware/audio-control-readiness.py:247-410 | the same for valid arguments, a child that started and pipes that may not have been prepared |
| Listing.Run | tools/hardware/audio-control-readiness.py:218-410 | for any interleaving and chunking: buffers are prefixes of the output, complete holds exactly when the child exited 0, all was read and everything fits, and then the buffers are the whole output; a faultless run that exits 0 is available; the error names the first that applies of timeout, capture error, unreaped child, exit status, cleanup; an untruncated stream was retained whole if and only if draining began and no select that was made failed, or the count happens to be all of it; otherwise the report is not available and truncation tells only of bytes over the limit and failed reads |
| NvmProfile.WalksAgree | tools/hardware/bt-qca6490-hci-bridge-probe.c:27-46 | two readings of the same bytes as records agree as far as the shorter one goes |
| NvmProfile.ReadingIsUnique | tools/hardware/bt-qca6490-hci-bridge-probe.c:27-46 | the record list of an accepted image, and its transport record, are unique |
| NvmProfile.AcceptedIsNotRejected | tools/hardware/bt-qca6490-hci-bridge-probe.c:14-52 | an image with a valid reading has one mode and deserves no rejection |
| NvmProfile.RejectionsExclude | tools/hardware/bt-qca6490-hci-bridge-probe.c:14-52 | no image deserves both kinds of rejection |
| NvmProfile.OneVerdict | tools/hardware/bt-qca6490-hci-bridge-probe.c:14-52 | the format alone fixes the verdict, so success is given if and only if the image has a valid reading |
| NvmProfile.WrittenIsImage | tools/hardware/bt-qca6490-hci-bridge-probe.c:27-46 | items written byte by byte, low bytes first, make an image of those records |
| NvmProfile.WrittenVerdict | tools/hardware/bt-qca6490-hci-bridge-probe.c:14-52 | the verdict an image written from any items deserves is the one the items call for: the top bit of the one six-byte transport payload, or a protocol error |
| NvmProfile.WalkIsRight | tools/hardware/bt-qca6490-hci-bridge-probe.c:23-51 | the walk ends with the verdict the image deserves |
| NvmProfile.Walk | tools/hardware/bt-qca6490-hci-bridge-probe.c:27-51 | the loop over the array computes that walk, with no index or subtraction out of range |
| NvmProfile.Validate | tools/hardware/bt-qca6490-hci-bridge-probe.c:21-51 | the header check and the walk give the deserved verdict |
| NvmProfile.TransportMode | tools/hardware/bt-qca6490-hci-bridge-probe.c:14-52 | null arguments are refused; otherwise the verdict is the one the image deserves, and on an image written from any items the one they call for |
| F2fsTree.MatchIsShaped | tools/gpu-compat/recover-vendor-closure.py:21 | only lines of the printed shape are entered in the table |
| F2fsTree.ShapedMatches | tools/gpu-compat/recover-vendor-closure.py:21 | every line of that shape is entered, with the shortest name that fits |
| F2fsTree.LineRoundTrip | tools/gpu-compat/recover-vendor-closure.py:21 | a printed node line gives back depth, name and inode |
| F2fsTree.LineText | tools/gpu-compat/recover-vendor-closure.py:21 | a line is bars for the depth, a branch, the name, the mark and the inode number |
| F2fsTree.HexSplits | tools/gpu-compat/recover-vendor-closure.py:47 | inode digits stand for sixteens and so on from the right |
| F2fsTree.NoEarlyMark | tools/gpu-compat/recover-vendor-closure.py:21 | the inode mark cannot start inside a name that does not contain it, not even across its end |
| F2fsTree.ParseTree | tools/gpu-compat/recover-vendor-closure.py:34-48 | the loop computes the table of the matched lines |
| F2fsTree.ListingIsEntered | tools/gpu-compat/recover-vendor-closure.py:38-47 | the truncated stack holds the current directory however deep the listing just went |
| F2fsTree.JoinIsInjective | tools/gpu-compat/recover-vendor-closure.py:46 | paths of slash-free names are told apart by their joined text |
| F2fsTree.JoinIsCut | tools/gpu-compat/recover-vendor-closure.py:46 | cut at its slashes, the text of a path of slash-free names is that path |
| F2fsTree.KeyIsNode | tools/gpu-compat/recover-vendor-closure.py:46-47 | every key of the table is the full path of a node |
| F2fsTree.NodesAreContributed | tools/gpu-compat/recover-vendor-closure.py:46-47 | every node is in the table under its full path with its own inode |
| F2fsTree.OneEntryEach | tools/gpu-compat/recover-vendor-closure.py:38-47 | there are as many entries as nodes |
| F2fsTree.TreeRoundTrip | tools/gpu-compat/recover-vendor-closure.py:34-48 | parsing the preorder listing of any proper forest gives exactly one entry per node, from full path to inode |
| F2fsTree.ReadBackExactly | tools/gpu-compat/recover-vendor-closure.py:21 | a printed line is read back as its node if and only if the name holds no inode mark |
| F2fsTree.DuplicatesCollide | tools/gpu-compat/recover-vendor-closure.py:44-47 | a name that occurs twice in one directory always costs an entry |
| F2fsTree.FaithfulExactly | tools/gpu-compat/recover-vendor-closure.py:34-48 | for slash-free names the table is the map from paths to inodes if and only if no directory repeats a name |
| F2fsTree.PrintedIsMatched | tools/gpu-compat/recover-vendor-closure.py:38-43 | a listing that shows the entries in order, each line with its own trailing text and among lines that show nothing, is read back entry by entry |
| F2fsTree.PrintedTreeRoundTrip | tools/gpu-compat/recover-vendor-closure.py:34-48 | from any such printed listing of slash-free, printable names the table is the map from paths to inodes if and only if no directory repeats a name |
| Framebuffer.RowInView | tools/drm-capture.py:259-263 | for every geometry that passes the checks each row slice lies inside the view, so the row error cannot occur |
| Framebuffer.AddressInMapping | tools/drm-capture.py:234-258 | every pixel of the framebuffer lies inside the mapping |
| Framebuffer.AddressIsInjective | tools/drm-capture.py:231-261 | no two channels of the framebuffer share a byte |
| Framebuffer.Spread | tools/drm-capture.py:163-165 | the strided assignment sets its own third of the bytes and leaves the others |
| Framebuffer.ConvertRow | tools/drm-capture.py:159-174 | each output pixel has the red, green and blue of its source pixel, taken as a little-endian number with red in bits 16 to 23 and blue in 0 to 7 for the RGB formats, the other way round for the BGR ones; other formats are refused |
| Framebuffer.ChannelsAreColour | tools/drm-capture.py:159-174 | the strides pick the bytes that those bits are |
| Framebuffer.FormatsAreNamed | tools/drm-capture.py:114-117 | the four format numbers are XR24, AR24, XB24 and AB24 |
| Framebuffer.FromLegacy | tools/drm-capture.py:208-211 | the older query gives a format only for 32 bits a pixel, and no modifier or offset |
| Framebuffer.ReadRow | tools/drm-capture.py:258-262 | one row of the window has the colours of the framebuffer pixels it lies over |
| Framebuffer.ReadWindow | tools/drm-capture.py:257-264 | every row is read and output pixel (row, col) has the colour of framebuffer pixel (y + row, x + col) |
| Framebuffer.Check | tools/drm-capture.py:214-236 | passes exactly the usable buffers that fit, and each refusal states a true objection |
| Framebuffer.Grab | tools/drm-capture.py:177-264 | rows are produced if and only if every check and call succeeds; then they show the window in colour; each refusal says what is wrong, and the row error is never raised |

## Left out

- Pid1.Init.Say: the wording of most status lines is arbitrary; the options line, modprobe's two lines, the mount report, the dump, the banner and the fatal record are exact.
- Pid1.Init.FatalSigHandler: the record is proved for the device log; what the kernel ring buffer shows is the kernel's business.
- Pid1.Init.ModprobeChild: the child stops at its exec; what busybox does is not modelled.
- Pid1.Init.PetWatchdog: a failed write to the watchdog is not retried by the code, so feeding counts attempts.
- Pid1.Init.RecordText: an uptime beyond 64 bits of seconds wraps, as the conversion to unsigned long on the device does.
- Listing.Run: KeyboardInterrupt and other non-OSError exceptions, which are re-raised after cleanup, and NaN or boolean arguments.
- Stability.Observer.Ask: the readers, the transport and the parsing of responses are one answer per query.
- Device-node creation, the console, `platform_bound` and the bound-state lines: foreign state with no bearing on the evidence.
- Rename is taken as atomic and durable, and an ext4 device as keeping synced bytes.
- Pid1.Init.ReadCounter: the kernel says "no such file" only of a file that does not exist, and opens only one that does; the opposite answers are counted as unavailable and as a first boot.
- Pid1.Init.WriteOptions: likewise, "no such file" said of an options file that exists counts as a failed removal.
- Pid1.Init.Modprobe: /proc/modules is any text at each call; that loading a module changes it is the kernel's business.
- The earlier init builds `initramfs/cinit.c` to `cinit12.c`.
- StabilityRun.ObserveStability: when a refused run leaves a binding marker in a store that loses, tears or forges markers is not characterised.
- The digest of the result receipt: two opaque values, the one the observer computed and the one the guard computed.
- The preliminary reads of flash, reboot and observation receipts before the run, and the failure receipts after it.
- JSON receipt fields, redaction, SSH transport and the command line of the observer.
- Decoding and line splitting of the tree file, and everything after the table in the recovery tool.
- PNG compression, CRC and the output file of the framebuffer capture; ioctls are single outcomes.
- The map-offset page size is 4096; other page sizes only change which offsets are refused.
