# Verification of KryptikOS

A Dafny model of the parts of KryptikOS whose correctness no finite test settles, with proofs over
all inputs, all runs or all interleavings. `dafny verify dfyconfig.toml` checks all of it.

- **Seccomp** (`Bpf`, `Syscalls`, `Seccomp`, `SeccompCorrect`, `SeccompBuild`): a classic BPF
  interpreter, the filter compiler with its computed one-byte jumps, and compiler correctness
  against a plain decision function. `Policy` and `PolicyFilter` carry it back to the text of a
  zone's policy file.
- **Zone registry** (`Registry`): claim, probe, reclaim, drop and crash as a step system over
  mkdir, open, flock, the inode recheck, unlink and rmdir, with a rely-guarantee proof.
- **exFAT writer** (`ExFatEntries`, `ExFatCard`, `ExFat`, `ExFatTool`, `ExFatRun`): allocation, FAT
  chains, entry sets and file data changed in place on a card, up to a whole run of the tool.
- **EFI boot entries** (`EfiOption`, `EfiBoot`, `EfiCommands`): the load option's encoder and decoder,
  and the commands over Boot####, BootOrder and BootNext, any of whose writes may fail.
- **Netlink** (`Netlink`, `NetlinkReply`, `NetlinkNames`): nested, padded attributes (sections 2.2
  and 2.3.2 of RFC 3549), the reply framing, and altnames in requests of 64.
- **Sound mixer** (`SoundRing`, `SoundRuns`, `SoundMix`, `SoundTable`): rings that refine queues,
  mixing arithmetic, the connection table and the microphone.
- **Camera** (`CameraRecord`, `Camera`): the grant's record, and its state machine against late
  removal events, unlocked zone starts, unchecked paths and a daemon that dies half-way.
- **Image list** (`Images`, `ImageList`) and **file delivery** (`Broker`).

Code that computes is functions and lemmas; code that changes things is methods, classes and loops
proved against those functions. Outside effects are parameters: a method that meets the kernel takes
the results of its calls (reads, writes, faults, event numbers) as arguments and is proved for all
of them. Text is `string`, bytes are integers below 256, and every width that can cut or wrap is
written out.

Three properties one would expect are false of the code as it stands. Each has a lemma with an input
that fails and a proof of exactly when the code is right.

- The socket rule's guard holds its body's length cut to one byte: correct if and only if the body
  is within 255 instructions. Every policy file that parses stays within 25.
- `forget` undoes `ensure` if and only if the slot's number did not already dangle in BootOrder and
  BootOrder was not there with no numbers.
- The camera's node is only ever in the holder's directory if and only if no grant was made with a
  device path the record's own reader refuses, or cut short between the node and the record. Two such
  grants give two zones the camera while nobody is on record as the holder.

The trace tool's answer to a namespace clone where clone is not listed, and to an ioctl that
rewrites a NIC, is not what the zone's filter does; the condition is exact.

## Model

| member | source | states |
|---|---|---|
| SeccompCorrect.ProgramComputesDecide | compartments/kryptikd/src/seccomp.rs:475-633 | for every allowlist, deny action, socket policy and call (architecture, number, arguments), interpreting the compiled BPF from its first instruction stays inside the program, reaches a `ret` and returns what the plain decision says: architecture, x32, argument rule, soft refusal, allowlist, deny |
| SeccompCorrect.CorrectExactlyWhenGuardSpans | compartments/kryptikd/src/seccomp.rs:561-563 | the compiled filter decides every call as the policy does if and only if the socket rule's body is at most 255 instructions, the reach of the guard's one-byte offset; the cut to `u8` is modelled, not excluded |
| SeccompCorrect.WrappedGuardMisdecides | compartments/kryptikd/src/seccomp.rs:561-563 | a concrete call the filter answers with EAFNOSUPPORT, and the policy does not, whenever the body is longer |
| SeccompCorrect.WidePolicyMisdecides | compartments/kryptikd/src/seccomp.rs:561-563 | such a policy: 250 added families and all of netlink give a body of 257 instructions whose own jumps fit, and a call the filter answers wrongly, under either deny action |
| SeccompCorrect.RunCompares | compartments/kryptikd/src/seccomp.rs:535-548 | a run of comparisons with computed forward offsets reaches the allow index exactly for a listed value and falls past it for any other |
| SeccompCorrect.SocketRule | compartments/kryptikd/src/seccomp.rs:507-553 | the generated socket body allows exactly the families and netlink protocols the policy allows, whatever families and protocols were added |
| SeccompCorrect.IoctlRule | compartments/kryptikd/src/seccomp.rs:484-495 | the ioctl body answers by request number: terminal injection and NIC rewrites stopped, all else allowed |
| SeccompCorrect.RunRules | compartments/kryptikd/src/seccomp.rs:600-604 | over the whole rule table, a call of an emitted rule gets that rule's decision and any other call falls through to what follows |
| SeccompBuild.BuildProgramFull | compartments/kryptikd/src/seccomp.rs:581-633 | the imperative builder: which inputs panic, are refused for a bad number or for length, and that what it returns decides every call as the policy says |
| SeccompBuild.SocketRuleBody | compartments/kryptikd/src/seccomp.rs:507-553 | the loops that collect families and protocols and push comparisons produce the specified body, or overflow an offset exactly when one does not fit a byte |
| SeccompBuild.EmitArgRule | compartments/kryptikd/src/seccomp.rs:475-565 | one rule appended behind its guard, leaving what was emitted before it in place |
| SeccompBuild.BothFiltersAllowTheSame | compartments/kryptikd/src/seccomp.rs:456-460 | the notifying and the killing compilation of one policy allow exactly the same calls |
| SeccompBuild.TraceAnswersAsTheZoneWould | compartments/kryptikd/src/seccomp.rs:456-495 | for a call the notifying filter stops, the trace's answer is what the killing filter does, except exactly for the NIC-rewriting ioctls and a namespace clone where clone is not listed |
| SeccompBuild.NicIoctlIsAnsweredOtherwise | compartments/kryptikd/src/seccomp.rs:456-495 | such a call: an ioctl that rewrites a NIC, which the trace would kill for and the killing filter answers with EPERM |
| Policy.Parse | compartments/kryptikd/src/policy.rs:63-170 | the line-by-line loop, with its seen set and its first error's line, computes the recursive parse of the whole text |
| Policy.Widen | compartments/kryptikd/src/seccomp.rs:887-913 | the two loops over extra calls and kept capabilities give the specified allowlist, or name a denied call |
| PolicyFilter.ParsedIsBounded | compartments/kryptikd/src/policy.rs:63-170 | whatever the text, a parsed policy holds only non-denied extra calls, tabled families and protocols, and all of privilege separation or none |
| PolicyFilter.SocketRuleIsShort | compartments/kryptikd/src/seccomp.rs:507-563 | every policy that parses compiles to a socket body of at most 25 instructions, so the guard never wraps for one |
| PolicyFilter.KeptOpenAllOrNone | compartments/kryptikd/src/seccomp.rs:880-900 | a capability set that passes the parser opens the five privilege-separation calls together or not at all, and no other call |
| PolicyFilter.FilterOfPolicyFile | compartments/kryptikd/src/policy.rs:63-193 | from the text of a policy file to the interpreted filter: exactly which calls without an argument rule come back ALLOW |
| PolicyFilter.NoDeniedCallWithoutTheNic | compartments/kryptikd/src/policy.rs:176-193 | for every policy text that parses and passes the zone check, a zone without the NIC gets a program that returns ALLOW for no denied call, whatever its arguments |
| PolicyFilter.NicZoneGetsFiveOrNone | compartments/kryptikd/src/caps.rs:36-67 | of the denied calls, a filter allows the five privilege-separation ones exactly when all three capabilities are kept, and never another |
| Registry.AtMostOneHandle | compartments/kryptikd/src/registry.rs:518-568 | in every interleaving of any number of claims, probes, reclaims, drops and crashes, at most one process holds a handle |
| Registry.LockPathNamesTheHolder | compartments/kryptikd/src/registry.rs:305-376 | whenever a handle is held the lock path names the inode its holder has locked |
| Registry.OthersLeaveTheEntryAlone | compartments/kryptikd/src/registry.rs:406-444 | however the others run on, reclaim, sweep or crash, an owned entry keeps its directory, lock, files and holder until the holder itself moves |
| Registry.OnlyTheSweeperRemoves | compartments/kryptikd/src/registry.rs:254-289 | a step that removes a file, the lock's name or the directory is a sweep's, and no other process holds a handle at that moment, even when a sweeper was paused between unlink and rmdir |
| Registry.StepGuarantees | compartments/kryptikd/src/registry.rs:254-568 | each system call of each operation changes the shared entry only as its process's own part of the protocol allows |
| Registry.GuaranteesKeepInv | compartments/kryptikd/src/registry.rs:305-376 | rely and guarantee: such a step keeps every other process's part of the invariant |
| Registry.RunKeepsInv | compartments/kryptikd/src/registry.rs:254-568 | the invariant holds after every run from a state that has it |
| Registry.LoneClaimWins | compartments/kryptikd/src/registry.rs:518-568 | from any state crashes can leave, whatever the kernel chooses, every run of a claim that meets nobody and no failing call holds the handle after exactly so many calls, a stale entry reclaimed on the way, and until then can always go on |
| ExFatCard.OneChainFromAHead | tools/image/exfat-add.py:78-83 | a FAT determines at most one chain from a cluster, so walking it is well defined |
| ExFatCard.ChainsAreAcyclic | tools/image/exfat-add.py:78-83 | a chain never meets a cluster twice, so the walk ends |
| ExFatCard.MarkUses | tools/image/exfat-add.py:88-101 | setting one bit of the bitmap marks exactly that cluster |
| ExFatCard.ChainsGrow | tools/image/exfat-add.py:88-101 | allocation keeps every existing chain as it was, and all chains disjoint, inside the bitmap and marked |
| ExFatCard.DataReplaced | tools/image/exfat-add.py:71-87 | a cluster written inside a chain replaces that stretch of the chain's data and nothing else |
| ExFatEntries.ChecksumHolds | tools/image/exfat-add.py:111-135 | a set carries the checksum a reader computes from the set itself |
| ExFatEntries.HashIgnoresCase | tools/image/exfat-add.py:103-109 | names equal under the up-case table have equal hashes |
| ExFatEntries.SetReadsBack | tools/image/exfat-add.py:111-150 | an entry set standing in a directory reads back as its name, kind, first cluster and 64-bit length |
| ExFatEntries.ListingAppends | tools/image/exfat-add.py:137-161 | a set written at the end marker is listed last, after exactly the sets that were there |
| ExFatEntries.Entries | tools/image/exfat-add.py:137-150 | the scan with its moving offset computes the listing and the end marker's place |
| ExFatEntries.BuildEntrySet | tools/image/exfat-add.py:111-135 | the byte array filled in place is the specified set |
| ExFat.WalkGrows | tools/image/exfat-add.py:163-177 | what a path named it still names once the card has grown |
| ExFat.SetAdds | tools/image/exfat-add.py:152-161 | writing a set into a directory's free room keeps the card sound, every other chain's bytes and every other listing |
| ExFatTool.Card.Chain | tools/image/exfat-add.py:78-83 | the walk gives the chain |
| ExFatTool.Card.Alloc | tools/image/exfat-add.py:88-101 | the first n free clusters, exactly those marked, chained in order with the first not a head before, every other FAT entry unchanged; refused exactly when fewer are free, with nothing changed |
| ExFatTool.Card.WritePieces | tools/image/exfat-add.py:179-189 | data cut over a chain's clusters is what the chain then holds, and no other chain changes |
| ExFatTool.Card.AddSet | tools/image/exfat-add.py:152-161 | the set is added exactly when it fits at the end marker without crossing a cluster; otherwise nothing is written |
| ExFatTool.Card.DirOf | tools/image/exfat-add.py:163-177 | the directory the path names, made where missing, beside everything that was there; a path already there changes nothing |
| ExFatTool.Card.Store | tools/image/exfat-add.py:179-189 | the file's chain holds its data and no directory changes; given up exactly when too few clusters are free |
| ExFatTool.Card.Add | tools/image/exfat-add.py:179-189 | after a successful add the path's directory lists what it listed and then the file with its length; the file's chain has just the clusters it needs and holds the data; every earlier file's bytes and directory's sets are there; and no directory lists more but the deepest of the path that was there, one set more; into an existing directory it succeeds exactly when clusters and directory have the room |
| ExFatTool.Card.Close | tools/image/exfat-add.py:191-197 | the bitmap file then holds the bitmap, and no other chain changes |
| ExFatRun.AddAll | tools/image/exfat-add.py:200-207 | a whole run: after any number of successful adds and the close, every path names its file with its length and data, what was on the card before is there, and the bitmap on the card is the one in memory |
| ExFatRun.FileStays | tools/image/exfat-add.py:163-189 | a file that stands on a card stands on it, under its path and with its data, once the card has grown |
| EfiOption.BuildLoadOption | tools/efi/kryptik-efiboot.c:195-228 | the encoder at its moving offset writes exactly the EFI_LOAD_OPTION of section 3.1.3 of the UEFI Specification 2.10 |
| EfiOption.ReadOption | tools/efi/kryptik-efiboot.c:232-251 | the decoder's loops compute the text of any bytes, truncated or malformed ones too |
| EfiOption.OptionReadsBack | tools/efi/kryptik-efiboot.c:195-251 | for printable description and file that fit the buffers, decoding the encoded option gives both back and the active flag |
| EfiBoot.WrittenIsRecognised | tools/efi/kryptik-efiboot.c:253-266 | an entry written for a slot is recognised as that slot's and as no other's |
| EfiBoot.EnsureTouchesOnlyItsEntry | tools/efi/kryptik-efiboot.c:322-347 | ensure writes one variable, which was the slot's or nobody's, keeps BootNext, and appends at most that number to BootOrder |
| EfiBoot.EnsureIsIdempotent | tools/efi/kryptik-efiboot.c:322-347 | a second ensure changes nothing |
| EfiBoot.ForgetRemovesExactlyOurs | tools/efi/kryptik-efiboot.c:361-388 | forget deletes Kryptik's entries and no other, keeps the others' order, and leaves no BootNext naming a missing entry |
| EfiBoot.ForgetUndoesEnsure | tools/efi/kryptik-efiboot.c:290-388 | forget after ensure equals forget alone if and only if the slot's number did not already dangle in BootOrder and BootOrder was not there with no numbers |
| EfiBoot.DanglingNumberIsForgotten | tools/efi/kryptik-efiboot.c:290-388 | the input that fails: the slot's own number in BootOrder with no entry, which forget alone keeps and forget after ensure drops |
| EfiBoot.EmptyOrderIsForgotten | tools/efi/kryptik-efiboot.c:64-88 | the other input that fails: a BootOrder with no numbers, which the reader accepts, forget alone keeps and forget after ensure deletes |
| EfiBoot.SetNextNamesTheSlot | tools/efi/kryptik-efiboot.c:350-359 | after set-next BootNext names an entry that is there, is the slot's and has a place in BootOrder |
| EfiCommands.EnsureIsWholeOrNot | tools/efi/kryptik-efiboot.c:322-347 | with any set of variables that cannot be written, ensure reports success exactly when it needed none of them, and has then done all; a failure leaves everything, or the entry alone written |
| EfiCommands.SetNextIsWholeOrNot | tools/efi/kryptik-efiboot.c:350-359 | set-next reports success exactly when its ensure did and BootNext could be written; it is then done whole, and otherwise BootNext is as it was |
| EfiCommands.ForgetIsWholeOrNot | tools/efi/kryptik-efiboot.c:361-388 | forget reports success only when all of it is done; a failure leaves everything, or the order done and of the rest what could be |
| EfiCommands.EnsureRetried | tools/efi/kryptik-efiboot.c:322-347 | whatever write failed, ensure again gives what it would have given at first |
| EfiCommands.ForgetRetried | tools/efi/kryptik-efiboot.c:361-388 | whatever write or delete failed, forget again gives what it would have given at first |
| EfiCommands.RunsKeepOthers | tools/efi/kryptik-efiboot.c:322-388 | over every run of ensure, set-next, clear and forget, any of their writes failing, every other system's entry and its place among the others stay as they were |
| EfiCommands.Efivars.ScanBootVars | tools/efi/kryptik-efiboot.c:269-281 | the directory scan lists Boot#### variables in order and stops at 256 |
| EfiCommands.Efivars.SlotVar | tools/efi/kryptik-efiboot.c:290-302 | its own number, else one already the slot's, else the first free one |
| EfiCommands.Efivars.EnsureEntry | tools/efi/kryptik-efiboot.c:322-347 | the command on the variables, any of which may refuse a write, leaves and reports what the specification function says |
| EfiCommands.Efivars.SetNextEntry | tools/efi/kryptik-efiboot.c:350-359 | set-next on the variables, any of which may refuse a write, leaves and reports what its specification function says |
| EfiCommands.Efivars.ForgetEntries | tools/efi/kryptik-efiboot.c:361-388 | the loops that filter and delete in place, and go on past a failed delete, leave and report what the specification function says |
| Netlink.ReadsBackExactlyWhenItFits | compartments/kryptikd/src/netlink.rs:129-157 | for every tree of attributes, whatever bytes stand before it, reading gives back the same kinds and data at every level if and only if every length fits 16 bits; the cut to `u16` is modelled |
| Netlink.CutLengthMisreads | compartments/kryptikd/src/netlink.rs:129-134 | an attribute whose length was cut is never read as itself |
| Netlink.ReadAttrs | compartments/kryptikd/src/netlink.rs:552-565 | the parsing loop ends on any bytes and computes the attributes |
| Netlink.MessageReadsBack | compartments/kryptikd/src/netlink.rs:77-164 | a request says its own length, stays 4-aligned, and its attributes read back exactly when they fit |
| Netlink.Msg.Raw | compartments/kryptikd/src/netlink.rs:92-97 | bytes appended and padded to four |
| Netlink.Msg.EndNested | compartments/kryptikd/src/netlink.rs:154-157 | the nest then reads as its own length mod 2^16 at its start; the message is as long as it was and every other byte is kept |
| Netlink.Emit | compartments/kryptikd/src/netlink.rs:129-157 | begin, children and end_nested around a growing buffer append exactly the tree's encoding |
| Netlink.BuildMessage | compartments/kryptikd/src/netlink.rs:77-164 | the builder from header to finish gives the specified message |
| NetlinkReply.ReadDatagram | compartments/kryptikd/src/netlink.rs:223-253 | the framing loop ends on any bytes and computes the outcome |
| NetlinkReply.Exchange | compartments/kryptikd/src/netlink.rs:192-256 | datagram after datagram until one ends the exchange; what is gathered never passes 128 KiB |
| NetlinkReply.Frames | compartments/kryptikd/src/netlink.rs:223-253 | whatever the bytes, gathered payloads only grow and stay within the cap |
| NetlinkReply.SplitIsInvisible | compartments/kryptikd/src/netlink.rs:192-256 | however the kernel cuts its messages into datagrams, the exchange ends as the messages in order say: payloads concatenated up to the first ack, end or error |
| NetlinkReply.DatagramIsItsMessages | compartments/kryptikd/src/netlink.rs:223-253 | a datagram of any messages reads as what they mean |
| NetlinkNames.NamesLeft | compartments/kryptikd/src/netlink.rs:568-588 | the nested loops give the altnames of every property list and the last alias |
| NetlinkNames.DelAltnames | compartments/kryptikd/src/netlink.rs:591-604 | requests of 64 names each, the rest in the last |
| NetlinkNames.RequestsAskForAll | compartments/kryptikd/src/netlink.rs:591-604 | whatever the number of altnames, the requests read back, in order, as exactly those names, each within its lengths |
| SoundRing.Ring.ReadPlay | tools/sound/kryptik-sound.c:579-598 | however the reads split, everything read is queued in order and nothing else changes; an eager socket fills the ring or runs dry; a hang-up ends the stream exactly when less than a frame is left |
| SoundRing.Ring.SampleAtIs | tools/sound/kryptik-sound.c:600-604 | a sample across the wrap is the s16le decoding of the queue |
| SoundRing.Ring.AddTo | tools/sound/kryptik-sound.c:617-631 | a period adds each queued sample times the gain to the sums, silence after, and takes just those frames out |
| SoundRing.Ring.EndedIsAllHeard | tools/sound/kryptik-sound.c:590-596 | an ended stream's samples are the decoding of every whole frame sent |
| SoundRing.Ring.PushCapture | tools/sound/kryptik-sound.c:771-776 | a capture goes in whole, or not at all when it does not fit |
| SoundRing.Ring.RecordIn | tools/sound/kryptik-sound.c:756-788 | however writes split, the captures that fit, one after another, are queued, what is sent comes off the front, and how much is sent and whether the socket breaks follow from the writes alone |
| SoundRuns.PlayStream | tools/sound/kryptik-sound.c:579-637 | over every run of reads and periods, what is heard is a prefix of the decoding of what the zone sent, everything sent is heard or in the ring, and an ended stream lost less than a frame; a zone that keeps its socket full never misses a period |
| SoundRuns.RecordStream | tools/sound/kryptik-sound.c:735-789 | over every run, what the zone has received and then what the ring holds is exactly the captures kept, turn by turn, whole and in order |
| SoundRuns.KeptAt | tools/sound/kryptik-sound.c:771-776 | a capture is kept exactly when the ring has room for it after those before it |
| SoundRuns.RecordedIsSubsequence | tools/sound/kryptik-sound.c:735-789 | the captures kept over a run are some of those made, in their order |
| SoundRuns.KeptUpLosesNothing | tools/sound/kryptik-sound.c:756-788 | a zone that takes all it is given at every turn receives every capture |
| SoundRuns.RoomKeepsAll | tools/sound/kryptik-sound.c:771-773 | a ring with room keeps every capture |
| SoundMix.SumsFit | tools/sound/kryptik-sound.c:614-637 | for volumes in 0..100 and up to 64 streams, no partial sum and no product with the master's gain leaves 64 bits |
| SoundMix.OrderDoesNotMatter | tools/sound/kryptik-sound.c:616-631 | the sums do not depend on which slot a stream has |
| SoundMix.LoneStreamIsItself | tools/sound/kryptik-sound.c:607-637 | a lone stream at full volumes comes out sample for sample |
| SoundMix.MutedIsSilent | tools/sound/kryptik-sound.c:607-637 | a muted master, or only muted or exhausted streams, is silence |
| SoundMix.TruncDiv | tools/sound/kryptik-sound.c:634 | the division rounds toward zero |
| SoundMix.Mix | tools/sound/kryptik-sound.c:614-637 | the nested loops give the saturated, truncated weighted sum of every stream's next period, and each stream is heard by exactly that |
| SoundTable.ReachableIsSafe | tools/sound/kryptik-sound.c:173-238 | in every reachable state at most one recording, the granted zone's; at most 8 streams a zone and 56 in all |
| SoundTable.RunKeepsSafe | tools/sound/kryptik-sound.c:173-238 | every event keeps that |
| SoundTable.ControlFindsASlot | tools/sound/kryptik-sound.c:218-238 | with fewer than 8 control connections open a control connection finds a slot |
| SoundTable.ZoneFindsASlot | tools/sound/kryptik-sound.c:218-238 | while control holds no more than its own slots, a zone's connection is taken exactly when it is within its share and the streams' total |
| SoundTable.OthersAreLeftAlone | tools/sound/kryptik-sound.c:173-238 | no event touches another connection's slot, but for recordings a grant or revoke ends |
| SoundTable.RecordingHeldTheGrant | tools/sound/kryptik-sound.c:528-551 | over every run, a recording in progress was begun by its zone while it held the grant and nobody recorded, and since then the zone has held the grant without a break |
| SoundTable.RecordingRunsUntil | tools/sound/kryptik-sound.c:396-401 | it stops exactly at its own end, a revoke that reaches the holder, or a grant to another zone |
| SoundTable.Mixer.StreamsOf | tools/sound/kryptik-sound.c:192-198 | the count of a zone's streams, or of all |
| SoundTable.Mixer.NewConn | tools/sound/kryptik-sound.c:173-181 | the first free slot, if there is one |
| SoundTable.Mixer.EndRecords | tools/sound/kryptik-sound.c:396-401 | every recording but the kept zone's is ended, no other slot touched |
| SoundTable.Mixer.AcceptOn | tools/sound/kryptik-sound.c:218-238 | the state after a connection, and that it is safe |
| SoundTable.Mixer.HelloLine | tools/sound/kryptik-sound.c:528-551 | the state after a zone says what it is, and that it is safe |
| SoundTable.Mixer.ControlLine | tools/sound/kryptik-sound.c:503-524 | the state after a grant, a revoke or another line, and that it is safe |
| CameraRecord.ReadsBackExactlyWhenRecordable | compartments/kryptikd/src/camera.rs:48-69 | a record reads back as the grant it was written for if and only if each field passes the reader's check and the name holds no line end |
| CameraRecord.RecordReads | compartments/kryptikd/src/camera.rs:48-69 | what any one-line-each record reads as: the grant, or none when the device path is refused |
| CameraRecord.SpacedPathIsNoGrant | compartments/kryptikd/src/camera.rs:78-81 | a record with a space in its path, which nothing checks before writing, is no grant |
| CameraRecord.ParsedIsSane | compartments/kryptikd/src/camera.rs:54-69 | whatever the text, a record that parses names a valid zone, node and path |
| CameraRecord.Parse | compartments/kryptikd/src/camera.rs:54-69 | the loop over lines computes the fold |
| Camera.StrayStep | compartments/kryptikd/src/camera.rs:217-364 | from any state, whatever nodes lie about: exactly which zones have a node without the grant after any operation, kernel event, late removal, start or cut-short grant |
| Camera.StraysOfARun | compartments/kryptikd/src/camera.rs:217-364 | over every run, a zone has a node without the grant if and only if a grant with a refused path, or one cut short, left it there and nothing has cleared its directory since |
| Camera.OwnedExactlyWhen | compartments/kryptikd/src/camera.rs:238-307 | at every moment of a run nodes are only in the directory of the zone the record names, if and only if no grant of the run was made with a path the reader refuses or cut short |
| Camera.OwnedIsOneZone | compartments/kryptikd/src/camera.rs:238-307 | nodes only with the holder means nodes in one zone at most |
| Camera.TwoZonesHaveTheNode | compartments/kryptikd/src/camera.rs:238-307 | the run that fails: two grants with a space in the device's path, and two zones have the camera with nobody on record |
| Camera.StartClears | compartments/kryptikd/src/camera.rs:217-233 | whatever was there, a zone's start leaves no node in its directory that is not the holder's, and no other directory changes |
| Camera.EquippedStep | compartments/kryptikd/src/camera.rs:343-364 | a holder keeps its node, except exactly after an end that stopped before the record, or a start that removed it on an out-of-date look |
| Camera.RemovalsAgainstAGrant | compartments/kryptikd/src/camera.rs:333-339 | however late a removal arrives in a run, it ends the grant if it is the grant's path and was numbered after the grant, and never otherwise, as for one an earlier grant's end caused |
| Camera.Daemon.GrantTo | compartments/kryptikd/src/camera.rs:238-307 | from any state, the state after, whatever goes wrong on the way, and exactly when a grant is made and which |
| Camera.Daemon.End | compartments/kryptikd/src/camera.rs:343-364 | from any state, how far an end gets, fault by fault |
| Camera.Daemon.Gone | compartments/kryptikd/src/camera.rs:333-339 | the state after a removal is heard of, and exactly when it ended the grant |
| Camera.Daemon.RevokeFrom | compartments/kryptikd/src/camera.rs:323-329 | ends exactly the grant of that zone; one that moved to another zone stays |
| Camera.Daemon.Revoke | compartments/kryptikd/src/camera.rs:316-319 | whoever holds it loses it |
| Camera.Daemon.ZoneDir | compartments/kryptikd/src/camera.rs:217-233 | the state after a start, on a look at the record that may be out of date and a removal that may fail |
| ImageList.AcceptedIsCanonical | compartments/kryptikd/src/images.rs:77-156 | every accepted text is the rendering of the list it parses to, and that list is well-formed: images strictly sorted, requires and needs naming listed images in image order |
| ImageList.RenderingIsAccepted | compartments/kryptikd/src/images.rs:77-156 | and the rendering of every well-formed list parses to it |
| ImageList.ListsHaveOneText | compartments/kryptikd/src/images.rs:77-156 | no two texts parse to the same list |
| ImageList.Parse | compartments/kryptikd/src/images.rs:77-156 | the accumulating loop computes the specified parse |
| ImageList.ImagesAreDistinct | compartments/kryptikd/src/images.rs:106-110 | a later image's name is greater, so none is listed twice |
| ImageList.CheckRequires | compartments/kryptikd/src/images.rs:220-227 | whether the named images hold what each requires |
| ImageList.NamedIsClosed | compartments/kryptikd/src/images.rs:220-227 | images that pass name everything they are built over, however deep |
| Images.ImageLineRenders | compartments/kryptikd/src/images.rs:158-186 | an accepted image line is the rendering of the image, whose sizes and hashes pass their checks |
| Images.ImageLineReads | compartments/kryptikd/src/images.rs:158-186 | and every such image's rendering is accepted as it |
| Images.NumberRenders | compartments/kryptikd/src/images.rs:69-74 | an accepted number is the decimal the value renders to |
| Broker.Out.CopyCapped | compartments/kryptikd/src/broker.rs:573-623 | against any schedule of short reads, interruptions, refusals, growth and shrinkage: at most cap + 1 bytes copied, `cap + 1 - total` never below one, every byte one the file had at that offset, success only at the file's end within the cap, progress at every read; and a file that stays as it is is copied whole |
| Broker.Incoming.Fill | compartments/kryptikd/src/broker.rs:557-569 | success is exactly the size checked |
| Broker.Incoming.DeliverInto | compartments/kryptikd/src/broker.rs:499-554 | success is the first free candidate name with exactly `size` bytes; a failure leaves the directory changed exactly when a file was begun and its unlink failed, and then by one new name; no existing file ever changes; a steady file of the size is refused only when all hundred names are taken or the system refuses |
| Broker.CandidatesDiffer | compartments/kryptikd/src/broker.rs:530-531 | the hundred candidate names are different names |
| Decimal.ValueOfShown | compartments/kryptikd/src/images.rs:69-74 | a number's digits, none of them a leading zero, have its value |
| Decimal.ShownOfValue | compartments/kryptikd/src/images.rs:69-74 | digits without a leading zero are what their value renders to |

## Left out

- Syscall numbers by name and the order of the base allowlist: the name table and the list are
  parameters, constrained to the calls they hold.
- The supplicant's and the Wayland proxy's fixed filters: the same interpreter would serve, on short constant programs.
- Installing filters, mounts, namespaces, Landlock, cgroups, dm-verity and signatures: effects of the kernel or of other programs.
- Registry: an flock inherited across fork, the timing between retries, the files' contents, and the cgroup kill inside a reclaim.
- exFAT: reading the boot sector and the up-case table, which are given; a card is well-formed to begin with, with zeroed space after each directory's end marker.
- ExFatTool.Card.Add: when directories must be made on the way, does not say exactly when the card runs out; the tool then stops with the card half-changed, as its source does.
- ExFatTool.Card.MakeDir: does not say exactly when the parent lacks room, for the same reason.
- EfiCommands.Efivars.EnsureEntry: takes a write that fails to leave its variable as it was, and variable names to be upper-case as the firmware writes them; the same holds for the other commands.
- Netlink.Message: lengths past 32 bits, which no request here reaches, are cut as the code cuts them but not proved to read back.
- NetlinkNames.RequestsAskForAll: states the kernel's own limit of 127 bytes and no NUL in an altname; a failed exchange stops the loop and is not modelled.
- NetlinkReply.SplitIsInvisible: every message is taken to be padded to four, the last of a datagram too.
- Sound: ALSA, card choice and switches, timeouts, the volumes' text and the levels' file; a control line is taken as the command it parses to.
- SoundTable.Mixer.ControlLine: volume and mute, which touch neither slots nor the grant, are lines like any other.
- Camera.StrayStep: takes a sysfs path to hold no newline.
- Camera.Daemon.End: the list of devices let go of, and the mark of a driver that stayed, decide nothing here.
- Images: `root_hash_from`, `needs_met`, `stacked` and the mounts; errors are one value without their wording.
- Broker: requests, peers and identities; other writers in incoming/ while a file is delivered.
- Broker.Out.CopyCapped: the loop over short writes inside one read is one write that may stop early.
