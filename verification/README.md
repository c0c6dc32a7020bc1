# Redis core: a verified model

This project models the parts of the Redis 8.2 sources whose correctness is an argument rather than a glance, and
proves what they promise. `dafny verify dfyconfig.toml` checks all of it.

- **CRC-64** (`Crc64*.dfy`, `DumpPayload.dfy`): the bit-by-bit reference, the slice-by-8 tables, the two- and
  three-way split with its merge by GF(2) matrix powers, the big-endian variant, and the DUMP payload that uses it.
- **ACL command rules** (`Acl*.dfy`): a rule string that is edited in place so that replaying it rebuilds the
  permission bitmap. **Quoting** (`SdsRepr.dfy`): what the splitting of such a line reads back.
- **Append only file**: the manifest through background rewrites, failures and restarts (`AofManifest.dfy`,
  `AofRuns.dfy`, `AofServer.dfy`); printing, loading and truncating the log (`AofLog.dfy`, `AofLoader.dfy`,
  `AofRecovery.dfy`); and the fsync protocol between two threads (`AofFsync.dfy`).
- **Background jobs** (`Bio.dfy`): submitters and workers in every interleaving.
- **Blocked clients** (`AdList.dfy`, `BlockedIndex.dfy`, `BlockedLists.dfy`, `Blocked.dfy`): the linked list, the
  two-way index of clients and keys, the same index on linked lists, and serving the clients of a key that became
  ready.
- **Bit operations** (`Bits.dfy`, `BitRange.dfy`, `Popcount.dfy`, `BitCount.dfy`, `BitWord.dfy`, `Bitpos.dfy`,
  `BitposCommand.dfy`, `BitOverflow.dfy`, `Bitfield.dfy`, `BitopBytes.dfy`, `Bitop.dfy`).
- **Cluster** (`Routing.dfy`, `Migrate.dfy`, `HashSlot.dfy`, `Glob.dfy`): redirections, moving keys, slots of keys
  and of patterns, and the glob matcher.

What the source changes in place is a class or an array here; a protocol between threads or machines is a state
machine over its single steps. The outside world (write and fsync results, replies of the other side, clocks,
thread scheduling, the command table, the key lookup, CRC-16) enters as parameters or as events of a run.

Where the code does not do what one would expect, the model follows the code, and a lemma says exactly when the
expectation holds:

- A restart after a rewrite that ran while the log was off may number its INCR file like a file that still exists
  (`AofRuns.ReopenIff`, `AofRuns.UnsafeRestartReachable`). A forced flush that leaves bytes in the buffer before
  the fork duplicates them (`AofRuns.DrainIsNeeded`). Switching the log on inside EXEC leaves a running rewrite
  alive, which can end with the log on and writes in no file (`AofRuns.EnableInExecIff`, `AofRuns.LostInsideExec`).
- A log that was cut inside a command of a transaction, or inside an annotation, loads, but commands logged
  afterwards are lost at the next load (`AofRecovery.AppendReplaysIff`).
- The empty-buffer branch of a flush publishes an offset too early after a switch to a new INCR file and after a
  failed fsync (`AofFsync.EarlyPublication`, `AofFsync.FailedFsync`). `AofFsync.PublishIff` says exactly when a
  publication is right; what the main thread can look at for it is whether close jobs are pending and the status of
  the background fsync (`AofFsync.GuardSuffices`, `AofFsync.SwitchPublishIff`, `AofFsync.StatusIff`). If the fsync
  that closes a file fails with bytes left, no later publication is right (`AofFsync.CloseFailureIsFinal`).
- BITPOS for a clear bit with no end given answers -1 when the start is not inside the string
  (`BitposCommand.ZeroPaddedIff`).
- BITFIELD SET with SAT stores the maximum for arguments far below the minimum (`BitOverflow.SetSaturatesIff`),
  and in an unsigned field for every negative argument (`BitOverflow.UnsignedSet`).
  Under WRAP the overflow checks return 1 for underflow too, unlike their comment; the model says "not zero".
- The ALLCOMMANDS flag of an ACL selector is not always reproduced by a replay (`AclSelector.FlagRebuiltIff`,
  `AclSelector.FlagLost`), which changes no decision (`AclSelector.RebuiltDecidesTheSame`).
- A first argument with a space or a quote is accepted by an ACL selector, but the rule string is edited and split
  at spaces. The string rebuilds the permissions throughout a run exactly if no such operation is accepted
  (`AclDescribe.EveryRunRebuilds`, `AclDescribe.OneMoreIff`); otherwise the description may fail at once or after a
  later edit, or lose a first argument silently (`AclDescribe.SpacedFails`, `AclDescribe.EditedSpacedFails`,
  `AclDescribe.QuietLoss`).
- The test whether a string needs quoting overlooks single quotes and the empty string, unlike its comment
  (`SdsRepr.ProtectedIff`).
- MIGRATE to database -1 sends no SELECT on a connection that has none recorded, and moves the keys to whatever
  database is selected (`Migrate.MisplacedIff`, `Migrate.MinusOne`).
- ASK names this very node if the slot was set to migrate to it, which CLUSTER SETSLOT accepts
  (`Routing.RedirectsElsewhere`, `Routing.AskedToItself`).
- The glob matcher matches nothing with a pattern whose stars nest deeper than 1000 (`Glob.GivingUpIsRight`).

## Model

| member | source | states |
|---|---|---|
| `Crc64.StepLinear` | redis-stable/src/crcspeed.c:130-142 | One zero bit through the register is linear over exclusive or, the fact behind every table and every merge |
| `Crc64.StepsInjective` | redis-stable/src/crcspeed.c:130-142 | Any number of zero bits through the register loses nothing: different registers stay different |
| `Crc64.TableStep` | redis-stable/src/crcspeed.c:60-60 | Eight zero bits are a table lookup of the low byte and a shift |
| `Crc64.CrcLinear` | redis-stable/src/crcspeed.c:149-150 | The start value and the data contribute independently to a CRC |
| `Crc64.CrcConcat` | redis-stable/src/crccombine.c:225-250 | The CRC of two blocks in a row is the first CRC moved over as many zero bytes, combined with the CRC of the second block from 0 |
| `Crc64.CrcInjective` | redis-stable/src/crcspeed.c:179-253 | On a fixed buffer different start values give different CRCs |
| `Crc64Check.CheckValue` | redis-stable/src/crc64.c:270-270 | The CRC of the nine digits 1 to 9 is the check value that the test of the source names |
| `Crc64Reference.ReflectInvolutive` | redis-stable/src/crc64.c:75-103 | Reversing the bits of a word twice gives the word back |
| `Crc64Reference.ReflectRound` | redis-stable/src/crc64.c:119-129 | A round of the bit-by-bit loop on the unreflected register is one step of the reflected register |
| `Crc64Reference.FeedIsUpdate` | redis-stable/src/crc64.c:117-132 | Feeding the eight bits of a byte one by one is the byte-wise update |
| `Crc64Reference.OneByte` | redis-stable/src/crc64.c:118-132 | The inner loop over one byte, on the unreflected register, computes the reflection of the byte-wise update |
| `Crc64Reference.BitByBit` | redis-stable/src/crc64.c:113-136 | The bit-by-bit reference computes the CRC from the reflected start value, for every buffer |
| `Crc64Reference.SameStart` | redis-stable/src/crc64.c:113-136 | Reference and table recurrence agree from a start value exactly when the value is its own reflection, as 0 is |
| `Crc64Combine.NibbleImage` | redis-stable/src/crccombine.c:47-112 | The 16-way switch picks exactly the rows whose combination is the image of the nibble |
| `Crc64Combine.Times` | redis-stable/src/crccombine.c:47-112 | The loop over the nibbles of a vector computes the matrix product: the operator applied to the vector |
| `Crc64Combine.CombineCache.Square` | redis-stable/src/crccombine.c:172-177 | Squaring turns "append n zero bits" into "append 2n zero bits" |
| `Crc64Combine.CombineCache.OneBitLayer` | redis-stable/src/crccombine.c:192-201 | The layer filled first is the operator "append one zero bit" |
| `Crc64Combine.CombineCache.ReadyIsVisible` | redis-stable/src/crccombine.c:230-233 | The first row of a built cache is never 0, so the lazy-initialisation test is right |
| `Crc64Combine.CombineCache.Init` | redis-stable/src/crccombine.c:192-212 | After initialisation layer k is exactly the operator "append 2^k zero bytes", for all 64 layers |
| `Crc64Combine.CombineCache.AppendZeros` | redis-stable/src/crccombine.c:235-245 | The loop over the bits of the length appends exactly that many zero bytes |
| `Crc64Combine.CombineCache.Combine` | redis-stable/src/crccombine.c:225-250 | Combining two CRCs, building the cache first if it is not there |
| `Crc64Combine.CombineIsConcat` | redis-stable/src/crccombine.c:225-250 | Combining crc(c, A) and crc(0, B) with the length of B gives crc(c, A + B) for all A and B |
| `Crc64Speed.FillTables` | redis-stable/src/crcspeed.c:47-63 | The eight tables hold, for every byte, its CRC followed by 0 to 7 zero bytes |
| `Crc64Speed.Slice8IsSteps` | redis-stable/src/crcspeed.c:134-142 | The eight lookups of a word advance the register over 64 bits |
| `Crc64Speed.WordAtOnce` | redis-stable/src/crcspeed.c:130-142 | Up to eight bytes may enter the register together |
| `Crc64Speed.LenMaskOnWords` | redis-stable/src/crcspeed.c:144-147 | On every word below 2^63, which a third or a half of a length is, the mask is the rounding that the split uses |
| `Crc64Speed.MergeStretch` | redis-stable/src/crcspeed.c:149-154 | Merging the CRCs of two adjacent stretches of the buffer gives the CRC of both |
| `Crc64Speed.ThreeLanes` | redis-stable/src/crcspeed.c:202-210 | Three stretches in step give the three CRCs |
| `Crc64Speed.TwoLanes` | redis-stable/src/crcspeed.c:224-230 | Two stretches in step give the two CRCs |
| `Crc64Speed.SplitThree` | redis-stable/src/crcspeed.c:193-215 | The three-way branch leaves the CRC of the bytes it consumed |
| `Crc64Speed.SplitTwo` | redis-stable/src/crcspeed.c:216-235 | The two-way branch leaves the CRC of the bytes it consumed |
| `Crc64Speed.CrcSpeedLittle` | redis-stable/src/crcspeed.c:179-253 | For every buffer, address, start value and pair of cutoffs, the split slice-by-8 code computes the CRC |
| `Crc64Big.Rev8Involutive` | redis-stable/src/crcspeed.c:89-101 | Reversing the bytes of a word twice gives the word back |
| `Crc64Big.FillBigTables` | redis-stable/src/crcspeed.c:105-113 | The big-endian tables are the byte-reversed little-endian ones |
| `Crc64Big.BigSlice8IsSteps` | redis-stable/src/crcspeed.c:307-341 | The eight lookups on reversed tables advance the reversed register over 64 bits |
| `Crc64Big.BigIsRev8` | redis-stable/src/crcspeed.c:307-341 | A word read big-endian is the byte-reversed word read little-endian |
| `Crc64Big.CrcSpeedBig` | redis-stable/src/crcspeed.c:307-341 | The big-endian code computes the same CRC for every buffer and address |
| `DumpPayload.LittleOfStore` | redis-stable/src/cluster.c:97-100 | The eight footer bytes read back as the checksum that was stored |
| `DumpPayload.BurstChangesCrc` | redis-stable/src/cluster.c:126-131 | Two strings of equal length that differ only within eight consecutive bytes have equal CRCs only if they are equal |
| `DumpPayload.MatchIsZeroResidue` | redis-stable/src/cluster.c:126-131 | The footer matches exactly when the CRC of the whole payload is 0 |
| `DumpPayload.CreatedIsAccepted` | redis-stable/src/cluster.c:75-131 | Every payload that is made is accepted and reports its version |
| `DumpPayload.BurstIsRejected` | redis-stable/src/cluster.c:108-131 | With validation on, a change within eight consecutive bytes, footer included, is always rejected |
| `DumpPayload.SkippedChecks` | redis-stable/src/cluster.c:122-124 | With validation off only the length and the version count |
| `AclText.SplitOfJoin` | redis-stable/src/sds.c:1054-1150 | Splitting a rule string of clean tokens gives the tokens back |
| `AclText.JoinSplitsIff` | redis-stable/src/sds.c:1054-1150 | Rules that begin visibly come back from the joined rule string exactly when none of them holds a separator or a quote |
| `AclText.SplitCost` | redis-stable/src/sds.c:1054-1150 | The tokens of any line never join to more than the line, and to as much only if all of them are clean |
| `AclText.MatchesIsCovers` | redis-stable/src/acl.c:598-608 | The length-limited comparison holds exactly for the same name and for subcommands of it |
| `AclText.RemoveRule` | redis-stable/src/acl.c:572-614 | For every rule string, whatever its rules hold, the in-place edit leaves exactly the pieces between spaces that the new rule does not cover, in order |
| `AclText.PiecesJoin` | redis-stable/src/acl.c:581-611 | Every string is the join of the pieces the editing loop takes it for |
| `AclText.PiecesOfJoin` | redis-stable/src/acl.c:581-611 | Rules without spaces are the pieces of their join, so there the edit is an edit of the rules |
| `AclText.SplitPrefix` | redis-stable/src/sds.c:1054-1150 | Clean tokens at the beginning of a line are its first tokens, whatever follows |
| `SdsRepr.CatRepr` | redis-stable/src/sds.c:958-982 | The quoting loop appends the quoted form of the string |
| `SdsRepr.SplitOfReprs` | redis-stable/src/sds.c:1054-1150 | Whatever bytes the strings hold, a line of their quoted forms is split into exactly these strings |
| `SdsRepr.BrokenQuotes` | redis-stable/src/sds.c:1095-1105 | A quoted string that is not closed, or closed right before something that is not blank, breaks the line |
| `SdsRepr.NeedsRepr` | redis-stable/src/sds.c:991-1002 | Exactly strings with a backslash, a double quote, a space or something not printable need quoting |
| `SdsRepr.ProtectedIff` | redis-stable/src/sds.c:984-1002 | A string that is quoted only if it needs it is read back exactly if it is not empty and, when it does not need it, holds no single quote |
| `AclRules.RetainedParses` | redis-stable/src/acl.c:618-626 | What is retained for an accepted operation parses to the same operation, whatever its letter case was |
| `AclRules.Absorbed` | redis-stable/src/acl.c:572-614 | After a rule, an earlier rule it covers has left no trace in bits or first arguments |
| `AclRules.KeptAgrees` | redis-stable/src/acl.c:572-626 | Dropping all covered rules, wherever they stand, is invisible once the new rule is applied |
| `AclRules.EditRebuilds` | redis-stable/src/acl.c:618-666 | If the retained list rebuilt the state before an operation, the edited list rebuilds it after |
| `AclSelector.ExecInv` | redis-stable/src/acl.c:1035-1210 | Every operation, accepted or not, keeps the invariant between retained rules, bits and first arguments |
| `AclSelector.RetainedRebuild` | redis-stable/src/acl.c:618-626 | In every run, whatever the operations, replaying the rules that no later one covers rebuilds bits and first arguments |
| `AclDescribe.EveryRunRebuilds` | redis-stable/src/acl.c:758-811 | For every run of any operations: the string that the in-place edits leave rebuilds bits and first arguments at every point of the run exactly if every accepted operation is free of separators and quotes |
| `AclDescribe.OneMoreIff` | redis-stable/src/acl.c:618-626 | One more accepted operation on a selector whose string joins clean rules: the string splits back into the rules, and it rebuilds bits and first arguments, exactly if the operation is clean |
| `AclDescribe.CleanRunsDescribe` | redis-stable/src/acl.c:758-811 | In every run in which no operation accepted since the last +@all or -@all holds a separator or a quote, the string splits back into the rules, rebuilds the permissions, and neither panic nor failed assertion occurs |
| `AclDescribe.TidyDescribes` | redis-stable/src/acl.c:780-787 | A string that joins clean rules is accepted token by token and rebuilds bits, first arguments and itself |
| `AclDescribe.UncleanBreaks` | redis-stable/src/acl.c:1135-1186 | After an operation with a separator or a quote the string of such a selector no longer rebuilds the first arguments |
| `AclDescribe.FirstArgAccepted` | redis-stable/src/acl.c:1135-1186 | Any text without a bar is accepted as first argument of a command without subcommands |
| `AclDescribe.SpacedFails` | redis-stable/src/acl.c:780-787 | +select with first argument "a b" is accepted; its string splits in two, the second half is no operation, and the assertion fails |
| `AclDescribe.EditedSpacedFails` | redis-stable/src/acl.c:572-614 | Followed by +select the string is "b +select": every retained rule is clean and the assertion still fails |
| `AclDescribe.QuietLoss` | redis-stable/src/acl.c:800-808 | +select with first argument "a xget", then +get: the string loses part of the argument, and nothing panics |
| `AclDescribe.DescribedDecidesTheSame` | redis-stable/src/acl.c:1696-1730 | A selector rebuilt from a string that describes it allows the same commands with the same arguments |
| `AclSelector.RebuiltDecidesTheSame` | redis-stable/src/acl.c:1696-1730 | A selector rebuilt from the retained rules allows the same commands with the same arguments |
| `AclSelector.FullBits` | redis-stable/src/acl.c:1052-1065 | Replaying rules of which none clears a bit on the all-commands base leaves every bit set, so a rebuilt flag allows nothing the bits do not |
| `AclSelector.FlagRebuiltIff` | redis-stable/src/acl.c:558-568 | The ALLCOMMANDS flag rebuilt from the retained rules is the live one exactly when that is set, the selector started without all commands, or a retained rule still clears a bit |
| `AclSelector.FlagLost` | redis-stable/src/acl.c:558-568 | Taking a command away from +@all and giving it back: the flag is lost, and the rebuilt selector has it |
| `AclState.Selector.SetBit` | redis-stable/src/acl.c:558-568 | Setting one bit, and the flag that a cleared bit takes away |
| `AclState.Selector.ChangePerm` | redis-stable/src/acl.c:630-644 | A command, its first arguments and all its subcommands change together |
| `AclState.Selector.SetCategoryBits` | redis-stable/src/acl.c:652-666 | Exactly the bits of a category change, in whatever order the commands come; AclMeaning.CategoryBits says which those are |
| `AclState.Selector.AddFirstArg` | redis-stable/src/acl.c:943-969 | A first argument is appended unless it is listed in some letter case |
| `AclState.Selector.UpdateCommandRules` | redis-stable/src/acl.c:618-626 | Whatever the rule string is, it is edited in place and the new rule appended |
| `AclState.Selector.CategoryOp` | redis-stable/src/acl.c:706-713 | A category operation records its rule and changes the bits |
| `AclState.Selector.SetSelector` | redis-stable/src/acl.c:1035-1210 | Any operation in place does what the model operation does to bits, flag, first arguments and rule string |
| `AclState.Selector.Reset` | redis-stable/src/acl.c:1052-1065 | +@all and -@all reset bits, flag, rules and first arguments |
| `AclState.Describe` | redis-stable/src/acl.c:758-811 | The description replays the rule string on a scratch selector, and panics exactly if the string does not split, an operation is refused, or the bitmaps differ |
| `AclMeaning.CategoryBits` | redis-stable/src/acl.c:652-666 | +@c sets and -@c clears the bits of exactly the commands that carry c, of the subcommands that carry it themselves and of all subcommands of such commands; every other bit stays |
| `AclMeaning.CategoryDecides` | redis-stable/src/acl.c:1696-1730 | After +@c or -@c a command may run, with any arguments, as the sign says if it is in the category, and otherwise exactly if it might before |
| `AclMeaning.CommandDecides` | redis-stable/src/acl.c:630-644 | The same for a command: it and all its subcommands change together, and nothing else |
| `AclMeaning.SubDecides` | redis-stable/src/acl.c:1135-1197 | The same for one subcommand, allowed or denied |
| `AclMeaning.ArgDecides` | redis-stable/src/acl.c:1135-1186 | A first argument allows its command with that argument in any letter case, and takes nothing away |
| `AclMeaning.ResetDecides` | redis-stable/src/acl.c:1052-1065 | After +@all everything may run, after -@all nothing |
| `AclMeaning.UnknownCategory` | redis-stable/src/acl.c:1199-1208 | An unknown category is refused and changes nothing |
| `AclMeaning.UnknownCommand` | redis-stable/src/acl.c:1127-1134 | An unknown command is refused and changes nothing |
| `AclMeaning.NoRuleTwice` | redis-stable/src/acl.c:572-614 | No two retained rules have the same name, and none is followed by a rule that covers it |
| `AclIds.CommandIds.GetCommandId` | redis-stable/src/acl.c:1532-1557 | One id per name whatever its case, never the reserved one, new ones never used before |
| `AofRuns.WriteInv` | redis-stable/src/aof.c:1408-1446 | Logging a command keeps replay plus buffer equal to the dataset |
| `AofRuns.FlushInv` | redis-stable/src/aof.c:1146-1354 | A flush, full or partial, keeps it |
| `AofRuns.StartInv` | redis-stable/src/aof.c:2544-2612 | Starting a rewrite keeps it, in every mode, whether the file, the manifest or the fork fails, if the flush before a successful fork drained the buffer |
| `AofRuns.FinishInv` | redis-stable/src/aof.c:2701-2861 | Ending a rewrite keeps it, for success and for every failure |
| `AofRuns.RewriteCompacts` | redis-stable/src/aof.c:2701-2861 | A rewrite that succeeds compacts the log: the new BASE file holds the dataset at the fork, the one INCR file exactly what was written since, and all files of the old log are gone |
| `AofRuns.EnableCompacts` | redis-stable/src/aof.c:2720-2815 | So does the rewrite that switches the log on, which is on from then |
| `AofRuns.FailedRewrite` | redis-stable/src/aof.c:2815-2861 | A rewrite that fails leaves a running log and its files as they were |
| `AofRuns.DelHistoryInv` | redis-stable/src/aof.c:681-705 | Deleting history never deletes a live file |
| `AofRuns.HistoryIsGone` | redis-stable/src/aof.c:681-705 | Afterwards no file of the history is on the disk, all others are as they were, and the history is empty, on the disk too if writing the manifest worked |
| `AofRuns.StopInv` | redis-stable/src/aof.c:1009-1031 | Turning the log off keeps it |
| `AofRuns.EnableInv` | redis-stable/src/aof.c:1035-1075 | Turning the log on keeps it, unless a rewrite is left running harmfully because EXEC is running |
| `AofRuns.EnableInExecIff` | redis-stable/src/aof.c:1042-1044 | After turning the log on inside EXEC, the log is open and complete whenever it is on, in every run that follows, exactly if no rewrite runs, or there is no temporary INCR file, or it is open and nothing was written since the fork |
| `AofRuns.HarmDone` | redis-stable/src/aof.c:2720-2815 | Otherwise the success of that rewrite leaves the log on with no INCR file and no descriptor, or with writes missing |
| `AofRuns.LostInsideExec` | redis-stable/src/aof.c:1042-1044 | A run of six steps that ends with the log on and a write in no file |
| `AofRuns.CrashKeepsNames` | redis-stable/src/aof.c:2720-2790 | A crash after the BASE rename, or after both renames, and before the manifest write leaves the persisted manifest and its files alone |
| `AofRuns.ReopenIff` | redis-stable/src/aof.c:726-780 | A restart restores the invariant exactly when the manifest lists an INCR file, or its history holds none and nothing is left under the first INCR name |
| `AofRuns.StepInv` | redis-stable/src/aof.c:803-867 | Every event keeps the invariant, given a drained buffer at a fork, a restart that is safe in the sense of ReopenIff and no harmful rewrite in the sense of EnableInExecIff |
| `AofRuns.RunInv` | redis-stable/src/aof.c:403-535 | So does every run of such events |
| `AofRuns.EveryRunReplays` | redis-stable/src/aof.c:1740-1860 | In every run of such events that ends with the log on, BASE and INCR files replayed in order plus the buffer give the dataset, and a restart after a crash at any point is safe |
| `AofRuns.CrashLosesTheBuffer` | redis-stable/src/aof.c:1740-1860 | With the log on, a crash at any of these points loses the unflushed buffer and nothing else |
| `AofRuns.NamesNeverCollide` | redis-stable/src/aof.c:439-475 | INCR numbers strictly increase and no history file shares a name with a live or a future file |
| `AofRuns.DrainIsNeeded` | redis-stable/src/aof.c:2559-2563 | With a non-empty buffer, the log after a rewrite is right exactly when the flush before the fork wrote all of it |
| `AofRuns.UnsafeRestartReachable` | redis-stable/src/aof.c:726-780 | A run of six steps that keeps the invariant and after which a restart breaks it |
| `AofServer.ManifestObject.Dup` | redis-stable/src/aof.c:403-421 | A duplicated manifest has the same value and its own lists |
| `AofServer.ManifestObject.NewBaseName` | redis-stable/src/aof.c:439-460 | The old BASE goes to the head of the history and the next number is used |
| `AofServer.ManifestObject.NewIncrName` | redis-stable/src/aof.c:467-477 | The next INCR number is used and its entry appended |
| `AofServer.ManifestObject.MarkRewrittenIncr` | redis-stable/src/aof.c:505-535 | All INCR entries but the last, or all if no log file is open, move to the history in order |
| `AofServer.Server.FeedAppendOnlyFile` | redis-stable/src/aof.c:1408-1446 | Logging in place is the model step |
| `AofServer.Server.FlushAppendOnlyFile` | redis-stable/src/aof.c:1208-1290 | Writing in place is the model step |
| `AofServer.Server.OpenNewIncrAofForAppend` | redis-stable/src/aof.c:803-867 | Opening the next INCR file in place is the model step, for every failure |
| `AofServer.Server.BackgroundRewriteDone` | redis-stable/src/aof.c:2701-2835 | The handler in place is the model step, for every failure |
| `AofServer.Server.StopAppendOnly` | redis-stable/src/aof.c:1009-1031 | Switching the log off in place is the model step |
| `AofServer.Server.StartAppendOnly` | redis-stable/src/aof.c:1035-1075 | Switching the log on in place is the model step, inside EXEC and outside, for every failure |
| `AofServer.Server.DelHistoryFiles` | redis-stable/src/aof.c:681-705 | Deleting the history in place is the model step |
| `AofLog.ReadOfDigits` | redis-stable/src/aof.c:1362-1363 | A printed number reads back |
| `AofLog.CatCommand` | redis-stable/src/aof.c:1356-1379 | The printing loop appends exactly the printed form of the command |
| `AofLog.ArgWhole` | redis-stable/src/aof.c:1594-1623 | A printed argument, whatever its bytes, reads back |
| `AofLog.CommandWhole` | redis-stable/src/aof.c:1573-1623 | A printed command reads back and leaves what follows it |
| `AofLog.CommandCut` | redis-stable/src/aof.c:1573-1623 | A command cut anywhere is a short read, never another command and never a format error |
| `AofLoader.ReadArgs` | redis-stable/src/aof.c:1594-1623 | The argument loop is the model of reading arguments |
| `AofLoader.ReadItem` | redis-stable/src/aof.c:1573-1623 | One turn of the loop: a printed command is read back and what follows it is left, a part of one is a short read, and only nothing is the end |
| `AofLoader.RunCommand` | redis-stable/src/aof.c:1636-1649 | Inside a transaction nothing runs before EXEC, which runs what waits in order; a plain command runs at once outside and waits inside; what ran and what waits are together the old commands and the new one |
| `AofLoader.LoadSingle` | redis-stable/src/aof.c:1557-1719 | The loading loop, with its offsets and its truncation, is the model of loading |
| `AofRecovery.LoopWhole` | redis-stable/src/aof.c:1557-1664 | The loader reads over any list of whole entries |
| `AofRecovery.CutShape` | redis-stable/src/aof.c:1557-1664 | A cut log is whole entries and a part of the next one |
| `AofRecovery.MarkOffsets` | redis-stable/src/aof.c:1661-1661 | The offsets kept for truncation are ends of whole commands |
| `AofRecovery.CutLoads` | redis-stable/src/aof.c:1666-1719 | With truncation allowed, for a log with transactions and annotations cut at any byte: status, commands run and file left |
| `AofRecovery.CutFails` | redis-stable/src/aof.c:1690-1719 | With truncation not allowed or not possible, the load fails exactly for a cut command or an open transaction, and the file is not touched |
| `AofRecovery.WholeLoads` | redis-stable/src/aof.c:1557-1680 | With truncation allowed, a log of whole entries runs what it means, and only an open transaction is cut off |
| `AofRecovery.TransactionMeans` | redis-stable/src/aof.c:1636-1649 | MULTI, plain commands and EXEC run exactly the plain commands, in order, and an unfinished transaction runs nothing |
| `AofRecovery.UnknownFails` | redis-stable/src/aof.c:1625-1634 | An unknown command ends the load with an error |
| `AofRecovery.GarbageFails` | redis-stable/src/aof.c:1580-1582 | Something that begins like no entry ends the load with an error, whatever is allowed, and nothing is cut off |
| `AofRecovery.ReloadRunsTheSame` | redis-stable/src/aof.c:1682-1719 | The truncated file reloads to the same commands |
| `AofRecovery.TwoLoadsSettle` | redis-stable/src/aof.c:1666-1719 | After two loads the file loads without complaint and is no longer changed |
| `AofRecovery.LeftOpen` | redis-stable/src/aof.c:1670-1676 | A load leaves a transaction open exactly when the cut went through one of its commands |
| `AofRecovery.AppendReplaysIff` | redis-stable/src/aof.c:1666-1719 | Commands logged after a load are replayed by the next one exactly when the first load left neither a torn annotation nor an open transaction |
| `AofRecovery.AppendLostExamples` | redis-stable/src/aof.c:1666-1719 | A cut inside a transaction and a cut inside an annotation: both conditions of AppendReplaysIff occur |
| `AofFsync.BeginInv` | redis-stable/src/aof.c:1146-1207 | The start of a flush keeps the invariant: in the empty-buffer branch the open file is fsynced, or its last fsync failed |
| `AofFsync.WriteInv` | redis-stable/src/aof.c:1217-1313 | A full, partial or failed write keeps it |
| `AofFsync.SyncInv` | redis-stable/src/aof.c:1315-1353 | The end of a flush keeps it, under every policy; what it does under each is AlwaysFsyncs and EverySecHandsOver |
| `AofFsync.AlwaysFsyncs` | redis-stable/src/aof.c:1329-1345 | Under always, unless a child suppresses it, a flush that writes everything fsyncs the open file and publishes the current offset, which is durable if no older file is being closed; a failed fsync stops the server |
| `AofFsync.AlwaysFsyncsRest` | redis-stable/src/aof.c:1172-1178 | Under always, bytes written before and not yet fsynced are fsynced by a flush with an empty buffer |
| `AofFsync.EverySecHandsOver` | redis-stable/src/aof.c:1346-1353 | Under everysec, a flush a second after the last fsync with none pending queues an fsync of the open file with the current offset |
| `AofFsync.EverySecHandsOverRest` | redis-stable/src/aof.c:1161-1170 | So does one with an empty buffer and bytes left to fsync |
| `AofFsync.PostponedTwoSeconds` | redis-stable/src/aof.c:1180-1207 | A flush is postponed exactly while an fsync is pending under everysec, it is not forced, and it has been postponed for less than two seconds |
| `AofFsync.SwitchInv` | redis-stable/src/aof.c:843-856 | Opening a new INCR file with an empty buffer keeps it |
| `AofFsync.HeadDurable` | redis-stable/src/bio.c:311-329 | The fsync of a job makes all bytes of its offset durable, because older files come first in the queue |
| `AofFsync.WorkerPublishInv` | redis-stable/src/bio.c:326-329 | What the worker publishes is durable; a failure only changes the status |
| `AofFsync.FsyncFailsInv` | redis-stable/src/bio.c:315-325 | A failed fsync of the worker keeps it |
| `AofFsync.RetireInv` | redis-stable/src/bio.c:361-366 | Removing the job keeps the invariant |
| `AofFsync.WorkerDoes` | redis-stable/src/bio.c:311-366 | A worker with a job fsyncs its file up to the end, publishes the offset of the job, records the status and removes the job; a failed fsync only records the status |
| `AofFsync.EverySecPublishes` | redis-stable/src/bio.c:311-329 | Under everysec, a flush that is due followed by the worker publishes the current offset, and all its bytes are durable |
| `AofFsync.StepInv` | redis-stable/src/bio.c:257-368 | Every step of either thread keeps it, failing fsyncs included, except an fsync that closes a file and fails with bytes left |
| `AofFsync.PublishIff` | redis-stable/src/aof.c:1150-1160 | An offset published by the main thread is durable exactly when all closed files are fsynced and the open file has not lost an fsync |
| `AofFsync.GuardSuffices` | redis-stable/src/aof.c:1150-1160 | It is durable whenever no close job is pending and the thread comes from an fsync of its own or finds aof_bio_fsync_status good |
| `AofFsync.SwitchPublishIff` | redis-stable/src/aof.c:843-856 | The first publication after a switch of files is right exactly if all of the old file had been handed to an fsync, when none has run since its last write |
| `AofFsync.StatusIff` | redis-stable/src/bio.c:315-329 | With one file fsynced by the worker, in every run with failing fsyncs that leave bytes, a publication of the main thread is right exactly if aof_bio_fsync_status is good |
| `AofFsync.CloseFailureIsFinal` | redis-stable/src/bio.c:315-325 | After a closing fsync that failed with bytes left, every publication of either thread in every run breaks the promise |
| `AofFsync.ClosingReachable` | redis-stable/src/bio.c:311-325 | A run in which the worker comes to such an fsync |
| `AofFsync.EveryRunKeepsThePromise` | redis-stable/src/aof.c:1146-1354 | In every interleaving, with fsyncs that may fail unless they close a file with bytes left, a published offset names bytes that are written and fsynced, if the main thread publishes under the guard of GuardSuffices |
| `AofFsync.SingleFileRuns` | redis-stable/src/aof.c:1146-1354 | With one INCR file this holds whichever fsyncs fail, if the main thread publishes after its own fsync or under a good status |
| `AofFsync.HonestRuns` | redis-stable/src/aof.c:1146-1354 | With one file and no failing fsync every interleaving is such a run |
| `AofFsync.HonestFromStart` | redis-stable/src/aof.c:1146-1354 | From the start of the server, every interleaving with one file and no failing fsync keeps the promise |
| `AofFsync.EarlyPublication` | redis-stable/src/aof.c:973-979 | A run with two files in which an offset is published too early |
| `AofFsync.FailedFsync` | redis-stable/src/aof.c:1150-1160 | A run with one file in which a failed fsync is followed by a publication |
| `Bio.AddInv` | redis-stable/src/bio.c:181-189 | Adding a job inside the lock region keeps the invariant |
| `Bio.WorkerInv` | redis-stable/src/bio.c:280-367 | Every step of a worker keeps it |
| `Bio.StepInv` | redis-stable/src/bio.c:181-390 | Every step of every thread keeps it |
| `Bio.RunInv` | redis-stable/src/bio.c:181-390 | So does every interleaving |
| `Bio.Fifo` | redis-stable/src/bio.c:280-367 | Each worker carries jobs out in submission order |
| `Bio.PendingIsExact` | redis-stable/src/bio.c:371-379 | With the lock free a counter is the number of queued or running jobs of its kind, and 0 means all are done |
| `Bio.DrainReturns` | redis-stable/src/bio.c:382-390 | A drain returns only when every job submitted before it is done |
| `Bio.CompletionsInOrder` | redis-stable/src/bio.c:340-355 | Completions are published once each, in order, after all earlier jobs of the worker |
| `Bio.SubmitAdds` | redis-stable/src/bio.c:181-189 | A submitted job is at the end of the queue of the worker of its kind, and counted |
| `Bio.WorkersOfKinds` | redis-stable/src/bio.c:59-67 | Jobs of the append only file share one worker, closing files and lazy freeing have their own |
| `Bio.WorkerRuns` | redis-stable/src/bio.c:280-355 | A worker that wakes runs the first job of its queue, and publishes a completion exactly for the kinds that have one |
| `Bio.WorkerRetires` | redis-stable/src/bio.c:357-366 | Then it removes that job and counts it down |
| `AdList.List.LinkNodeHead` | redis-stable/src/adlist.c:90-101 | A node is linked at the head |
| `AdList.List.LinkNodeTail` | redis-stable/src/adlist.c:123-134 | A node is linked at the tail |
| `AdList.List.InsertNode` | redis-stable/src/adlist.c:136-163 | A value is inserted before or after a node |
| `AdList.List.UnlinkNode` | redis-stable/src/adlist.c:179-193 | Exactly the given node leaves the list; only it and its neighbours are written |
| `AdList.List.DelNode` | redis-stable/src/adlist.c:169-176 | Exactly the given node leaves the list, and nothing outside the list is written |
| `AdList.List.RotateTailToHead` | redis-stable/src/adlist.c:348-360 | The tail becomes the head |
| `AdList.List.RotateHeadToTail` | redis-stable/src/adlist.c:363-375 | The head becomes the tail |
| `AdList.List.Join` | redis-stable/src/adlist.c:379-395 | One list is appended to another and left empty |
| `AdList.List.Sweep` | redis-stable/src/adlist.c:228-253 | An iteration that deletes the element just returned visits every element once, in order |
| `BlockedIndex.InListIff` | redis-stable/src/blocked.c:387-430 | A client is in the list of a key exactly once if the key is in its dictionary, as the very node stored there |
| `BlockedIndex.EnterOk` | redis-stable/src/blocked.c:399-429 | Blocking on a key keeps the two-way index and the counts |
| `BlockedIndex.LeaveOk` | redis-stable/src/blocked.c:535-568 | Releasing a key keeps them; no list is left empty and the asserted entries exist |
| `BlockedIndex.LeaveKeepsOrder` | redis-stable/src/blocked.c:535-552 | Releasing a key takes out one node and keeps the order of the others |
| `BlockedLists.Lists.EnterKey` | redis-stable/src/blocked.c:399-429 | On linked lists: the client is appended to the list of the key and stores the very node, which is entering the index |
| `BlockedLists.Lists.LeaveKey` | redis-stable/src/blocked.c:535-568 | On linked lists: the client unlinks the node it has stored, without a search, which is leaving the index |
| `Blocked.Blocking.BlockForKeys` | redis-stable/src/blocked.c:387-438 | A client is added at the tail of each of its keys once, and the counters follow |
| `Blocked.Blocking.ReleaseBlockedEntry` | redis-stable/src/blocked.c:535-568 | One entry is released |
| `Blocked.Blocking.UnblockClientWaitingData` | redis-stable/src/blocked.c:442-456 | All entries of a client are released in any order |
| `Blocked.Blocking.QueueClientForReprocessing` | redis-stable/src/blocked.c:162-169 | A client is queued once |
| `Blocked.Blocking.UnblockClient` | redis-stable/src/blocked.c:173-215 | Whatever it waits for, a client leaves index and counters |
| `Blocked.Blocking.UnblockWithReply` | redis-stable/src/blocked.c:731-750 | Timeout and error unblock and queue the client |
| `Blocked.Blocking.BlockClient` | redis-stable/src/blocked.c:74-86 | Blocking for other reasons counts the client |
| `Blocked.Blocking.TakeUnblocked` | redis-stable/src/blocked.c:118-123 | The first unblocked client is taken off the queue |
| `Blocked.Blocking.SignalKeyAsReady` | redis-stable/src/blocked.c:475-522 | A key is queued once, and no waiter it could be for is missed by the early returns |
| `Blocked.Blocking.SignalAll` | redis-stable/src/blocked.c:475-522 | None of the signals of a command that someone waits for is lost |
| `Blocked.Blocking.UnblockClientOnKey` | redis-stable/src/blocked.c:659-701 | A woken client leaves all its lists and stands at the tail of those it blocks on again; one that finished is queued once, unless it is of a module |
| `Blocked.Blocking.HandleClientsBlockedOnKey` | redis-stable/src/blocked.c:581-617 | The initial waiters are visited once each in order. Whoever is not of a module, and wants to hear of deletions or finds a value of its type, leaves the list. Those of modules, and those that find nothing or a value of another type and do not want to hear of deletions, stay in their order, as they were, before those that block again |
| `Blocked.Blocking.HandleReadyList` | redis-stable/src/blocked.c:351-374 | The ready keys are handled once each, in order: every waiter of one of them that is not of a module and always finds a value of its type, or wants to hear of deletions, has left; clients of modules and those that wait for none of the keys are as they were |
| `Bits.WeightIsOnes` | redis-stable/src/bitops.c:35-122 | The set bits of a stretch of bytes are the set bits at its places |
| `Popcount.CountsByLane` | redis-stable/src/bitops.c:94-114 | The parallel steps on a word are the same steps on each of its bytes |
| `Popcount.SmallVal` | redis-stable/src/bitops.c:94-114 | The steps on a byte give its number of set bits |
| `Popcount.TopOfTimes` | redis-stable/src/bitops.c:108-114 | The multiplication adds the four byte sums in the top byte, at most 224, without loss |
| `Popcount.BlockWeight` | redis-stable/src/bitops.c:80-115 | The count of a 28-byte block is its number of set bits |
| `Popcount.CountBlock` | redis-stable/src/bitops.c:82-115 | The seven-word block as programmed |
| `Popcount.CountWithPopcnt` | redis-stable/src/bitops.c:55-78 | The 32-byte loop with four counters |
| `Popcount.RedisPopcount` | redis-stable/src/bitops.c:35-122 | The number of set bits, for every length and alignment, on both paths |
| `BitRange.MaskFormulas` | redis-stable/src/bitops.c:1237-1244 | The edge masks are what the shifts compute |
| `BitCount.Trimmed` | redis-stable/src/bitops.c:1270-1280 | Whole bytes less the masked bits outside the range are the bits in the range |
| `BitCount.Bitcount` | redis-stable/src/bitops.c:1194-1283 | BITCOUNT is the number of set bits at the places of the normalised range, in bytes or bits |
| `BitCount.WholeRange` | redis-stable/src/bitops.c:1194-1283 | 0 and -1, in bytes or in bits, are the whole string |
| `BitCount.InsideRange` | redis-stable/src/bitops.c:1194-1283 | Indexes inside the string, counted from the front or from the end, are the bytes or bits between them, both ends included |
| `BitWord.WordBit` | redis-stable/src/bitops.c:174-210 | The shifted test bit finds exactly the bits of the bytes, from the left |
| `BitWord.FoldIsWord` | redis-stable/src/bitops.c:174-182 | Loading byte by byte gives the big-endian word |
| `Bitpos.LoadWord` | redis-stable/src/bitops.c:174-182 | The last word is zero-padded |
| `Bitpos.Scan` | redis-stable/src/bitops.c:194-210 | The scan stops at the first place that holds the bit |
| `Bitpos.RedisBitpos` | redis-stable/src/bitops.c:131-216 | The first place that holds the bit in the zero-padded string, -1 if none; the panic is unreachable |
| `BitposCommand.Search` | redis-stable/src/bitops.c:1376-1408 | The masked first byte, the whole bytes and the masked last byte together find the first place of the range |
| `BitposCommand.BitposOf` | redis-stable/src/bitops.c:1286-1424 | BITPOS answers the least place of the range, or the first zero from the start when no end is given |
| `BitposCommand.ZeroPaddedIff` | redis-stable/src/bitops.c:1372-1423 | With no end given, the first zero of the padded string is answered exactly when the start is inside the string; otherwise -1 |
| `BitOverflow.UnsignedExact` | redis-stable/src/bitops.c:318-353 | For a stored value overflow is reported exactly when the sum does not fit; WRAP is the sum modulo the size, SAT the nearest bound |
| `BitOverflow.UnsignedSet` | redis-stable/src/bitops.c:318-353 | The same for a value that is set, except that SAT is the maximum, which is the nearest bound exactly for arguments that are not negative |
| `BitOverflow.SignedUnique` | redis-stable/src/bitops.c:387-405 | Sign extension gives the one value in range that is congruent |
| `BitOverflow.SignedExact` | redis-stable/src/bitops.c:355-408 | For a stored signed value overflow is reported exactly when the sum does not fit, with WRAP and SAT as expected |
| `BitOverflow.SignedSet` | redis-stable/src/bitops.c:355-408 | The same for a value that is set, but for SAT |
| `BitOverflow.SetSaturatesIff` | redis-stable/src/bitops.c:359-379 | SAT of a set value is the nearest bound exactly when its distance to the maximum fits a signed word; otherwise the maximum is stored |
| `BitOverflow.SetSaturatesWrongly` | redis-stable/src/bitops.c:359-379 | The smallest argument set into eight bits saturates to 127 |
| `Bitfield.SetUnsigned` | redis-stable/src/bitops.c:239-252 | Exactly the bits of the field are written |
| `Bitfield.GetUnsigned` | redis-stable/src/bitops.c:259-271 | The number in the field |
| `Bitfield.GetSigned` | redis-stable/src/bitops.c:273-293 | The two's complement number in the field |
| `Bitfield.FieldWritten` | redis-stable/src/bitops.c:239-271 | What is written is read back, cut to the width |
| `Bitfield.OtherField` | redis-stable/src/bitops.c:239-271 | Fields that do not overlap keep their value |
| `Bitfield.GetField` | redis-stable/src/bitops.c:1642-1671 | GET reads the zero-padded string wherever it ends |
| `Bitfield.Execute` | redis-stable/src/bitops.c:1558-1638 | SET and INCRBY reply, store and leave other bits alone as the overflow type says |
| `BitopBytes.FastIsIdeal` | redis-stable/src/bitops.c:676-811 | Without early exit, each operation computes its meaning; ONE is set exactly if one source is |
| `BitopBytes.SlowByte` | redis-stable/src/bitops.c:1071-1165 | With early exit it computes the same |
| `Bitop.VectorPath` | redis-stable/src/bitops.c:663-811 | The vector path computes it for all its blocks |
| `Bitop.WordPath` | redis-stable/src/bitops.c:918-1068 | The four-word path computes it for all its blocks |
| `Bitop.BytePath` | redis-stable/src/bitops.c:1070-1167 | The byte path completes the result |
| `Bitop.BitopOf` | redis-stable/src/bitops.c:864-1169 | On every path and for sources of any lengths each bit is the operation on the padded sources, and the length is the longest one |
| `Bitop.MaxLenIs` | redis-stable/src/bitops.c:864-905 | The length of the result is that of a longest source |
| `Routing.ScanKey` | redis-stable/src/cluster.c:1162-1226 | One key: the first fixes slot, owner and migration state, later ones must have the same slot; presence is counted |
| `Routing.Route` | redis-stable/src/cluster.c:1098-1312 | The answer is the table read off the flattened keys; RefusedIff, SettledSlot, ImportedNotAsked, MigratingSlot and ImportingSlot say what the table is |
| `Routing.OnlyKeysMatter` | redis-stable/src/cluster.c:1138-1230 | Without sharded channels the answer depends on the commands only through the sequence of all keys |
| `Routing.RefusedIff` | redis-stable/src/cluster.c:1175-1260 | Exactly when a query is refused: slot not served, keys of different slots, cluster down, cluster down and a write |
| `Routing.NotRouted` | redis-stable/src/cluster.c:1230-1232 | Without keys, with redirections off, or for EXEC outside a transaction, the query is served here |
| `Routing.SettledSlot` | redis-stable/src/cluster.c:1295-1312 | With a slot that does not move, MOVED names the owner exactly if that is another node and this is not its replica asked to read; otherwise the query is served |
| `Routing.ImportedNotAsked` | redis-stable/src/cluster.c:1284-1312 | A slot being imported is like a settled one to a client that is not asking |
| `Routing.MigrateIsServed` | redis-stable/src/cluster.c:1262-1266 | MIGRATE is served while its slot is moving |
| `Routing.MigratingSlot` | redis-stable/src/cluster.c:1267-1278 | A slot being migrated away is served exactly if no key is missing, asked at the other node exactly if all are, and tried again later otherwise |
| `Routing.ImportingSlot` | redis-stable/src/cluster.c:1284-1293 | A slot being imported is served to an asking client unless several keys are named and one is missing, which is to be tried again |
| `Routing.RedirectsElsewhere` | redis-stable/src/cluster.c:1267-1312 | Redirections name the owner or the node the slot moves to; MOVED never names this node, ASK exactly if the slot is set to move to this node |
| `Routing.AskedToItself` | redis-stable/src/cluster.c:1267-1278 | A slot set to move to its own node sends a client with missing keys back to this node |
| `Migrate.AckedIsThere` | redis-stable/src/cluster.c:616-650 | A key acknowledged by the target is there with its value |
| `Migrate.DropExpired` | redis-stable/src/cluster.c:527-573 | The arrays are compacted to exactly the keys whose time is not up, in order |
| `Migrate.NothingDropped` | redis-stable/src/cluster.c:527-573 | The clock of a command stands still, so no key that was found is dropped |
| `Migrate.ReadReplies` | redis-stable/src/cluster.c:605-650 | A key is deleted only after its reply and those of AUTH and SELECT are no errors; the list of deleted keys is exact |
| `Migrate.Attempt` | redis-stable/src/cluster.c:488-737 | One attempt as programmed, for every pattern of failures: each key is here or at the target with its value, and OK exactly if everything was written, carried out, heard and accepted |
| `Migrate.TriedSafe` | redis-stable/src/cluster.c:605-650 | Whatever fails, and whatever is believed of the connection, each key is here or at the target with its value |
| `Migrate.TriedOkIff` | redis-stable/src/cluster.c:690-698 | OK is replied exactly if everything was written, carried out and heard, and no answer is an error |
| `Migrate.AckedIff` | redis-stable/src/cluster.c:616-650 | The target stores a key unless it refuses or, without REPLACE, the key is there, sent earlier in the same command included |
| `Migrate.OkMeans` | redis-stable/src/cluster.c:605-698 | OK in terms of the events alone: AUTH, SELECT and every RESTORE accepted, everything written, carried out and heard, and without REPLACE no key in the way |
| `Migrate.DeletedIff` | redis-stable/src/cluster.c:640-650 | Exactly these keys are deleted here: stored by the target, with the answer heard, not with COPY, and with AUTH and SELECT accepted |
| `Migrate.RetryIff` | redis-stable/src/cluster.c:714-737 | A second attempt follows exactly if the first was the first, did not time out, and heard no answer about any key |
| `Migrate.TriedConn` | redis-stable/src/cluster.c:620-650 | An attempt keeps the belief about the selected database true, and is repeated only if nothing changed here |
| `Migrate.MigrateKeys` | redis-stable/src/cluster.c:399-737 | At most two attempts; each key is on at least one side with its value; DEL names exactly the deleted keys; NOKEY exactly if no argument is here with its time not up; after OK every argument that is here with its time not up is at the target with its value, in the database asked for unless that is -1, and here only if copied; the belief about the connection stays true |
| `Migrate.MisplacedIff` | redis-stable/src/cluster.c:513-518 | Keys that are deleted here go to another database than the one asked for exactly if that is -1 |
| `Migrate.MinusOne` | redis-stable/src/cluster.c:460-518 | MIGRATE to database -1 on a new connection moves the key to database 0 and replies OK |
| `Migrate.EveryRunKeeps` | redis-stable/src/cluster.c:399-737 | In every run of MIGRATE commands with any failures every key is here or at the target with its value, and in a database asked for if none is -1 |
| `HashSlot.KeyHashSlot` | redis-stable/src/cluster.h:57-76 | The slot is the hash of the first non-empty tag, or of the whole key |
| `HashSlot.TagIsHashed` | redis-stable/src/cluster.h:57-76 | The text between the first brace and the next closing one is hashed; an empty tag or an open brace leave the whole key |
| `HashSlot.PatternHashSlot` | redis-stable/src/cluster.c:34-59 | -1 exactly when something special comes before the end of a tag |
| `HashSlot.PatternSlots` | redis-stable/src/cluster.c:34-59 | A plain pattern and a plain tag have the slot of their text, a pattern with something special before or inside the tag has none |
| `HashSlot.PlainPrefix` | redis-stable/src/util.c:65-196 | What matches begins with the plain text the pattern begins with |
| `HashSlot.PlainMatchesOnly` | redis-stable/src/util.c:65-196 | A plain pattern matches itself only |
| `HashSlot.PatternSlotIsSound` | redis-stable/src/cluster.c:34-59 | Every key that a pattern with a slot matches has that slot |
| `Glob.GivingUpIsRight` | redis-stable/src/util.c:65-100 | A pattern matches exactly if trying everything matches and its stars nest at most 1000 deep |
| `Glob.LoopSound` | redis-stable/src/util.c:65-196 | A match at any nesting is right, and its stars nest no deeper than is left |
| `Glob.RangeMatches` | redis-stable/src/util.c:105-160 | A range matches the characters between its ends, in either order, with letter case folded if asked for; a negated range the others |
| `Glob.MemberMatches` | redis-stable/src/util.c:105-185 | A class of one member, an escaped member, an escaped character and a question mark |
| `Glob.StarMatches` | redis-stable/src/util.c:72-100 | A star and a rest match whatever ends in a match of the rest; a last star matches anything |

## Left out

- CRC-16 is a parameter; its fast variants are not part of this model.
- The vector variant of the matrix product in crccombine.c is not part of this model.
- AclState.Selector.SetSelector: does not model key and channel patterns, because a merged pattern prints in another form than it was given; an operation on them counts as accepted. Operations do not hold the character 0. Passwords, ACL files and client killing are I/O.
- AclState.Selector.SetBit: models the bitmap as one boolean per id, not as machine words.
- AofRuns.EveryRunReplays: is stated for runs whose forks find the buffer drained, whose restarts are safe and which leave no rewrite running harmfully inside EXEC, because it fails otherwise (`AofRuns.DrainIsNeeded`, `AofRuns.ReopenIff`, `AofRuns.EnableInExecIff`).
- AofServer.Server.OpenNewIncrAofForAppend: does not model the replication offsets in the manifest, the upgrade of an old single file, or a rename that succeeds while the directory sync fails; the manifest is written atomically.
- AofLog.CommandWhole: is stated for argument counts that an int holds and lengths that a long holds, as the reading functions return those.
- AofLoader.LoadSingle: does not model an RDB preamble (reported as `Rdb`), read errors other than the end of the file, or negative lengths other than as format errors; a command is what it is to the loader: plain, MULTI, EXEC or unknown.
- AofFsync.EveryRunKeepsThePromise: takes a successful fsync to make all written bytes of its file durable, even after one that failed, and a switch of files to find the buffer empty; switching the log off and on, which resets the status, is not modelled here.
- Bio.DrainReturns: is about safety; that a waiting thread is eventually woken is not modelled, and a wake-up may come at any time.
- AdList.List.Sweep: the list operations that only read (search, index, duplicate) are left out as easy.
- Blocked.Blocking.BlockForKeys: works on the index of `BlockedIndex.dfy`; that entering and leaving on linked lists is the same is `BlockedLists.dfy`, and serving clients is not repeated there.
- Blocked.Blocking.HandleReadyList: is one round; the outer loop goes on as long as commands make further keys ready, which nothing bounds.
- Blocked.Blocking.UnblockClient: does not model the lists of postponed clients and of clients waiting for acknowledgements, timeouts, statistics and module callbacks.
- Popcount.CountBytes: takes the table of bits per byte to hold the number of set bits of each byte.
- BitOverflow.LowBits: masking with a power of two is a remainder, not a bit operation on a machine word.
- Bitfield.Execute: is one operation; parsing BITFIELD and running its operations in turn is left out as easy.
- Bitop.BitopOf: a vector and four words are 32 bytes on which the operations work byte by byte.
- Routing.Route: the keys of a command are given; finding them in its arguments is not part of this model.
- Migrate.MigrateKeys: keys and values are opaque, the payload is that of `DumpPayload.dfy`; the target's other clients, expiry after the transfer, and a module callback that may see expired keys are not modelled.
- HashSlot.PatternSlotIsSound: is for matching with letter case, as keys are matched.
- The web application around Redis, networking, modules, scripting, replication and cluster gossip are not part of this model.
