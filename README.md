# pdbg instruction injection, POWER10 thread control and SBE FIFO framing

A Dafny model of three sequential cores of pdbg, the POWER debugger library:

- **Instruction injection** (`libpdbg/chip.c`). This covers the Power ISA instruction encoders and `ram_instructions`. That function runs opcodes one at a time on a stopped thread through a single scratch SPR, bracketed by saving and restoring r0 and r1. It also covers the register and memory accessors built on it and `ram_getregs`.
- **POWER10 thread and core control** (`libpdbg/p10chip.c`). This covers:
  - the thread state decoder;
  - probe, release, start, stop and sreset of a thread;
  - special wakeup on core probe and release;
  - core-relative SCOM address translation.
- **SBE FIFO operation** (`libsbefifo/operation.c`). This is one request/reply transaction and the splitting of the reply into response data, status header and FFDC.

Hardware is never modelled directly; it is an oracle:

- A thread's backend hooks (`ram_setup`, `ram_instruction`, `getxer`, `ram_destroy`) are total functions of the history of calls made so far. Every call is appended, with its answer, to the thread's `trace`.
- The core's SCOM bus (`pib_read`/`pib_write`) is handled the same way, logging into `Bus.log`.
- The SBE FIFO device (`read(2)`/`write(2)`) is handled the same way, logging into `Context.log`.

Contracts therefore state the exact sequence of calls an operation makes and how its results follow from the answers.

Modules:

| file | module | models |
|---|---|---|
| `hwunit.dfy` | `Hwunit` | struct thread, struct core, the bus, the backend hooks |
| `opcodes.dfy` | `Opcodes` | the opcode encoders |
| `ram.dfy` | `RamEngine` | `ram_instructions`: an in-place method over a `results` array, the step function `Loop` that mirrors the C loop, and the phase view `Sequence` (save, user opcodes, restore) |
| `condreg.dfy` | `CondReg` | the CR reassembly loop of `ram_getcr` |
| `accessors.dfy` | `Registers` | `ram_get*` / `ram_put*` |
| `getregs.dfy` | `Getregs` | `ram_getregs` |
| `p10.dfy` | `P10` | `libpdbg/p10chip.c` |
| `sbefifo.dfy` | `Sbefifo` | `sbefifo_operation` |

Stopping a thread that never quiesces makes at most 102 state polls, not the 100 that `RAS_STATUS_TIMEOUT` (100, commented "100ms", `libpdbg/p10chip.c:42`) suggests. The loop tests `i++ > RAS_STATUS_TIMEOUT` (`libpdbg/p10chip.c:146`). The model follows that test.

## Model

| member | source | states |
|---|---|---|
| Opcodes.Mfspr | libpdbg/chip.c:31-37 | for a register 0-31: RT holds reg, the split SPR field reassembles to the low 10 bits of spr, and every other bit is MFSPR_OPCODE |
| Opcodes.Mtspr | libpdbg/chip.c:39-45 | the same field layout over MTSPR_OPCODE |
| Opcodes.Mfocrf | libpdbg/chip.c:47-55 | for reg 0-31 and field 0-7: RT holds reg, FXM is the one-hot mask 1 << cr, and the rest is MFOCRF_OPCODE |
| Opcodes.Mtocrf | libpdbg/chip.c:57-69 | the same over MTOCRF_OPCODE; out-of-range operands are excluded, since the C exits on them |
| Opcodes.Mfnia | libpdbg/chip.c:71-77 | RT holds reg and the rest is MFNIA_OPCODE |
| Opcodes.Mtnia | libpdbg/chip.c:79-85 | RT holds reg and the rest is MTNIA_OPCODE |
| Opcodes.Mfmsr | libpdbg/chip.c:87-93 | RT holds reg and the rest is MFMSR_OPCODE |
| Opcodes.Mtmsr | libpdbg/chip.c:95-101 | RT holds reg and the rest is MTMSR_OPCODE |
| Opcodes.Ld | libpdbg/chip.c:103-109 | for in-range operands, RT, RA and DS decode back to rt, ra and ds, and the rest is LD_OPCODE |
| Opcodes.LdFields | libpdbg/chip.c:103-109 | the field round trip of the ld encoding, proved bit by bit |
| RamEngine.SaveRestoreOpcodes | libpdbg/chip.c:133-150 | the four bracket opcodes are mtspr 277,r1 / mtspr 277,r0 and mfspr r0,277 / mfspr r1,277 |
| RamEngine.Step | libpdbg/chip.c:133-169 | one loop iteration keeps the results length and strictly advances the index |
| RamEngine.StepUser | libpdbg/chip.c:140-142 | a user step injects ops[i] fed with results[i]; on success it stores the answer in results[i]; on an exception it stores the answer in the last slot and jumps to the restore steps |
| RamEngine.StepBookend | libpdbg/chip.c:134-166 | save and restore steps: r1 and r0 take the saved scratch; a failure ends the loop with the exception flag set |
| RamEngine.InjectStep | libpdbg/chip.c:134-153 | the method's single injection is the step function's answer for that index |
| RamEngine.InjectAll | libpdbg/chip.c:133-169 | the loop over an in-place results array leaves the trace, the array and the exception flag exactly as the step function Loop computes |
| RamEngine.Ram | libpdbg/chip.c:119-175 | the specification function of ram_instructions keeps results the same length as the opcodes |
| RamEngine.RamInstructions | libpdbg/chip.c:119-175 | the return code, the new trace and the new results array are those of Ram; ram_is_setup is unchanged |
| RamEngine.User | libpdbg/chip.c:140-168 | the user phase makes only injections: all remaining opcodes when none fails, otherwise up to and including the failing one |
| RamEngine.UserCallAt | libpdbg/chip.c:140-161 | call j of the user phase injects ops[i+j] fed with res[i+j]; it is the failing call exactly when it is the phase's last call and the phase failed |
| RamEngine.UserResultAt | libpdbg/chip.c:140-168 | results before the phase, and after the failure point, are untouched; injected slots hold their answers; on failure the last slot holds the failing answer |
| RamEngine.Restore | libpdbg/chip.c:143-150 | restore injects mfspr r0 fed with r0, then mfspr r1 fed with r1 exactly when the first succeeded |
| RamEngine.Sequence | libpdbg/chip.c:133-169 | the phase view makes between 1 and len+4 calls, all injections |
| RamEngine.LoopUser | libpdbg/chip.c:140-158 | running the loop from a user index equals finishing the user phase and then running the restore steps |
| RamEngine.LoopSaves | libpdbg/chip.c:134-139 | a failing save of r1 ends the loop after one call, and a failing save of r0 after two; otherwise the user phase starts with r1 and r0 saved |
| RamEngine.LoopRestores | libpdbg/chip.c:143-166 | the restore steps append Restore's calls and set the exception flag when the last of them failed |
| RamEngine.LoopIsSequence | libpdbg/chip.c:133-169 | the C-shaped loop and the phase view agree on the calls, the results and the exception flag |
| RamEngine.SequenceShape | libpdbg/chip.c:133-169 | the phase view is save r1, save r0, the user phase, then restore; a failed save skips everything after it |
| RamEngine.SequenceException | libpdbg/chip.c:153-160 | the exception flag is set if and only if some injection failed |
| RamEngine.RunWithoutFailure | libpdbg/chip.c:133-169 | with no failure there are exactly len+4 calls: the saves, each opcode fed with its results entry (whose answer becomes the result), then the restores fed with the saved r0 and r1 |
| RamEngine.RunWithUserFailure | libpdbg/chip.c:153-158 | a first failure at user opcode k skips opcodes k+1 onwards, leaves their results untouched except the last slot, and still restores r0 and, when that succeeds, r1 |
| RamEngine.RunWithSaveRestoreFailure | libpdbg/chip.c:153-160 | a failing save or restore ends the loop at once; a failed save leaves results untouched |
| RamEngine.Calls | libpdbg/chip.c:119-175 | the calls of one ram_instructions, setup and destroy excluded, are injections |
| RamEngine.RamIsSequence | libpdbg/chip.c:126-175 | ram_instructions opens a session only when none is open (setup failure is returned at once), closes only the session it opened, and returns the destroy's error, else the exception flag |
| RamEngine.RamInSession | libpdbg/chip.c:126-169 | inside an open session only injections are made |
| RamEngine.RamOpensSession | libpdbg/chip.c:126-172 | without a session it makes setup, injections, then destroy |
| RamEngine.RamOwnsSession | libpdbg/chip.c:126-172 | both session cases in one statement, including the failed setup |
| RamEngine.RamReturnCode | libpdbg/chip.c:126-174 | the return code is the setup error, else the destroy error, else 1 exactly when some injection failed |
| RamEngine.RamSucceeded | libpdbg/chip.c:119-175 | return code 0 means all len+4 injections succeeded, and each results entry is its opcode's answer |
| CondReg.CrFieldsNext | libpdbg/chip.c:269-273 | one iteration of the getcr loop ORs the masked nibble of results[2j+1] |
| CondReg.CrFieldsAll | libpdbg/chip.c:269-273 | the assembled CR is the eight masked nibbles of the odd results |
| CondReg.NibblesKept | libpdbg/chip.c:269-273 | masking the assembled word with field k's mask gives field k's source nibble |
| CondReg.CrNibble | libpdbg/chip.c:269-273 | nibble k of the CR is nibble k of results[2k+1]; the other bits of each result are discarded |
| CondReg.AssembleCr | libpdbg/chip.c:269-273 | the loop computes the assembled CR |
| Registers.Run | libpdbg/chip.c:185 | a fixed opcode list through ram_instructions: Ram's outcome, and on success each opcode injected with its result fed and answered |
| Registers.RamGetGpr | libpdbg/chip.c:180-188 | the value is the answer of mtspr 277,gpr on success, else the caller's value; inside a session only injections are made |
| Registers.RamPutGpr | libpdbg/chip.c:190-197 | mfspr gpr,277 is injected fed with the value |
| Registers.RamGetNia | libpdbg/chip.c:199-207 | mfnia r0 then mtspr 277,r0, whose answer is the value on success |
| Registers.RamPutNia | libpdbg/chip.c:216-227 | the five opcodes in order (save LR, value to r0, r0 to LR, mtnia, restore LR), with the value fed to the second |
| Registers.RamGetSpr | libpdbg/chip.c:229-237 | mfspr r0,spr then mtspr 277,r0, whose answer is the value on success |
| Registers.RamPutSpr | libpdbg/chip.c:239-246 | the value is fed to mfspr r0,277, then mtspr spr,r0 |
| Registers.RamGetMsr | libpdbg/chip.c:248-256 | mfmsr r0 then mtspr 277,r0, whose answer is the value on success |
| Registers.RamPutMsr | libpdbg/chip.c:290-297 | the value is fed to mfspr r0,277, then mtmsr r0 |
| Registers.RamGetMem | libpdbg/chip.c:299-307 | mfspr r0,277 is fed 0xdeaddeaddeaddead and mfspr r1,277 the address; then come ld r0,0(r1) and mtspr 277,r0, and the value is the latter's answer |
| Registers.GetCrOpcodes | libpdbg/chip.c:260-263 | sixteen opcodes |
| Registers.GetCrResults | libpdbg/chip.c:264 | sixteen zeroed slots |
| Registers.GetCrOpcodesAt | libpdbg/chip.c:260-263 | entry 2k is mfocrf r0,k and entry 2k+1 is mtspr 277,r0 |
| Registers.RamGetCr | libpdbg/chip.c:258-277 | the value is the CR assembled from the results on success, else the caller's value; the sixteen opcodes are injected in order |
| Registers.GetCrReadsFields | libpdbg/chip.c:268-273 | on success, CR field k is field k of the answer of the mtspr that follows mfocrf k |
| Registers.PutCrOpcodes | libpdbg/chip.c:281-283 | nine opcodes |
| Registers.PutCrOverrun | libpdbg/chip.c:281-286 | the C's one-slot results array is not as long as the nine opcodes, which ram_instructions requires; a successful run over ram_putcr's opcodes feeds every slot from 1 on to the mtocrf injected there and writes that injection's answer back into it |
| Registers.PutCrResults | libpdbg/chip.c:284 | a results array as long as the opcode list, starting with the value |
| Registers.PutCrOpcodesAt | libpdbg/chip.c:281-283 | entry k+1 is mtocrf k,r0 |
| Registers.RamPutCr | libpdbg/chip.c:279-288 | the value is fed to mfspr r0,277, followed by the eight mtocrf in order |
| Getregs.InSession | libpdbg/chip.c:127-174 | inside an open session ram_instructions appends exactly its calls to the trace and returns 0 exactly when all of them succeeded |
| Getregs.SessionGetSpr | libpdbg/chip.c:229-237 | inside ram_getregs' open session, reading an SPR makes injections only and leaves the session open; when all succeed they are six calls with mfspr r0,spr and mtspr 277,r0 at the user positions, and the value is the latter's answer; otherwise the field keeps the caller's value |
| Getregs.SessionGetGpr | libpdbg/chip.c:180-188 | the same for a GPR: five calls, mtspr 277,gpr, whose answer is the value |
| Getregs.SessionGetNia | libpdbg/chip.c:199-207 | the same for the NIA, with mfnia r0 |
| Getregs.SessionGetMsr | libpdbg/chip.c:248-256 | the same for the MSR, with mfmsr r0 |
| Getregs.SessionGetCr | libpdbg/chip.c:258-277 | the same for the CR: when all twenty calls succeed, the sixteen user calls are ram_getcr's opcodes and the value is the eight fields answered at calls 3, 5, ..., 17, each in its own nibble; otherwise the caller's value |
| Getregs.CrValueField | libpdbg/chip.c:269-273 | CR field k of a successful read is field k of the answer of call 3+2k |
| Getregs.GetFrontRegs | libpdbg/chip.c:332-338 | nia, cfar, msr, lr, ctr, tar and cr are read in this order with injections only; each read has its accessor's shape, and each field is what its read answered, or the caller's value when the read failed |
| Getregs.GetGprs | libpdbg/chip.c:342-343 | GPR i is read by the i-th read, with injections only; each read is mtspr 277,i when it succeeds, and each GPR is what its read answered, or the caller's value |
| Getregs.GetHypervisorSprs | libpdbg/chip.c:345-365 | lpcr to fscr are read in the C's order with injections only; each field is what its mfspr read answered, or the caller's value; hdsisr and heir go through the shared temporary, as the low 32 bits |
| Getregs.GetSupervisorSprs | libpdbg/chip.c:367-379 | the same for dsisr to ppr, with dsisr through the temporary |
| Getregs.TemporaryCarries | libpdbg/chip.c:324-368 | a failed hdsisr read yields 0, a failed heir read yields hdsisr's value, and a failed dsisr read yields heir's, not the caller's values |
| Getregs.ReadRegs | libpdbg/chip.c:332-379 | inside the session every call is an injection except the one getxer; every read has its accessor's shape; the register set is the one the reads give (RegsOf) |
| Getregs.RamGetRegs | libpdbg/chip.c:321-386 | a failed setup is returned with nothing read; otherwise setup, then injections and one getxer, then one destroy, whose code is returned; the session is closed and the register set is the one the reads give |
| P10.QuiescedBits | libpdbg/p10chip.c:67 | the quiesced field is 7 exactly when the thread's RAS status bits 1, 2 and 3 are all set |
| P10.QuiescedMask | libpdbg/p10chip.c:67 | PPC_BITMASK(1+8id, 3+8id) is those three bits |
| P10.SmtBits | libpdbg/p10chip.c:72-89 | SMT mode from THREAD_INFO bits 8 and 9: 00 is SMT1, 10 is SMT2, 11 is SMT4, 01 is unknown |
| P10.DecodeBits | libpdbg/p10chip.c:59-98 | each decoded state field in terms of the register bits it comes from, both directions |
| P10.State | libpdbg/p10chip.c:59-98 | reads RAS_STATUS, THREAD_INFO and CORE_THREAD_STATE in that order, and the result is their decoding |
| P10.ThreadProbe | libpdbg/p10chip.c:100-108 | the id becomes the target index, the cached state is one fresh read, and the result is 0 |
| P10.ThreadRelease | libpdbg/p10chip.c:110-118 | the core's release flag is cleared when the thread is quiesced, and never set |
| P10.ControlAndRefresh | libpdbg/p10chip.c:128-134 | one write of the bit to DIRECT_CONTROL, then a fresh state read cached |
| P10.ThreadStart | libpdbg/p10chip.c:120-137 | refused with 1 and nothing written unless quiesced; otherwise it clears maintenance (bit 3) when inactive or stopped, starts (bit 6) otherwise, and refreshes the state |
| P10.ThreadSreset | libpdbg/p10chip.c:156-167 | refused with 1 unless quiesced; otherwise it writes bit 4 and refreshes the state |
| P10.PollRunNext | libpdbg/p10chip.c:144-150 | a further poll after a non-quiesced one extends the run |
| P10.PollStopped | libpdbg/p10chip.c:144-150 | the stop loop makes 1 to 102 polls, all but the last not quiesced, the last quiesced or the 102nd |
| P10.ThreadStop | libpdbg/p10chip.c:139-154 | writes bit 7, polls as above, caches one more fresh state, and returns 0 even on timeout |
| P10.WakeupPoll | libpdbg/p10chip.c:191-201 | reads QME_SSH_FSP until the done bit is set or the 102nd read; a failed read is returned at once |
| P10.CoreProbe | libpdbg/p10chip.c:184-206 | writes PPC_BIT(0) to QME_SPWU_FSP; a failing write or read is returned, else it polls; the release flag is set when the probe succeeds and is otherwise left as it was |
| P10.ReleaseChild | libpdbg/p10chip.c:216-230 | a released thread is skipped; an unprobed one is probed first; an enabled one is released, and its quiesced state clears the core's flag |
| P10.ReleaseNextRec | libpdbg/p10chip.c:216-230 | one trip of the loop on a thread not touched before: an unknown or enabled thread ends Released, others keep their status; an unknown one gets its index as id and the state decoded from the next three reads, where the previous trips ended; any other keeps its id and cached state |
| P10.ReleaseFirstKept | libpdbg/p10chip.c:216-230 | the release of the first k threads depends only on the log up to the end of their reads, so later bus accesses leave it as it was |
| P10.ReleaseFirstEnd | libpdbg/p10chip.c:216-230 | the probes of the first k threads take exactly three reads per thread of unknown status, in thread order (`ProbeStarts`), and lie within the log |
| P10.ReleaseFirstRead | libpdbg/p10chip.c:216-230 | every log entry the loop has consumed is a read |
| P10.ReleaseFirstReads | libpdbg/p10chip.c:216-230 | the two lemmas above together: where the reads end, and that they are all reads |
| P10.ReleaseFirstThread | libpdbg/p10chip.c:216-230 | thread j among the first k is released as `ReleasedRec` says, its probe reads at the position `ProbeStarts` gives, after those of the unprobed threads before it |
| P10.ReleaseFirstThreads | libpdbg/p10chip.c:216-230 | the same for every thread among the first k |
| P10.ReleaseFirstFlag | libpdbg/p10chip.c:216-230 | after the first k threads the flag is still set exactly when it was set before and no thread released among them is quiesced |
| P10.ReleasedFirstNext | libpdbg/p10chip.c:216-230 | what `ReleaseChild` does to thread k carries "the first k threads released as `ReleaseFirst` says" to k + 1 |
| P10.ReleaseStep | libpdbg/p10chip.c:216-230 | one trip of the loop on thread k keeps the records of every thread, the flag and the log equal to `ReleaseFirst` of one more thread |
| P10.ReleaseThreads | libpdbg/p10chip.c:216-230 | after the loop, the records of every thread, the flag and the log are exactly `ReleaseFirst` over all threads, from the records, flag and log before it |
| P10.ReleasedAllClose | libpdbg/p10chip.c:232-235 | after the loop, the write of 0 to QME_SPWU_FSP, made exactly when the flag is still set, completes the release |
| P10.ReleasedAllThreads | libpdbg/p10chip.c:208-236 | a whole release thread by thread: every thread ends as `ReleasedRec` says, with its probe reads in thread order; the log holds only those reads and then the optional write; the flag survives exactly when no released thread is quiesced |
| P10.CoreRelease | libpdbg/p10chip.c:208-236 | each thread's target status, id and cached state, the flag and the log end as `ReleaseFirst` over all threads says, plus the write of 0 to QME_SPWU_FSP exactly when the flag is still set; thread by thread, a thread of unknown status gets its index as id and the state of its own three reads, which come in thread order, and any other keeps its id and state; only released threads that are quiesced clear the flag |
| P10.Translate | libpdbg/p10chip.c:241-268 | the chiplet field becomes 0x20 + index/4 (6 bits), the region field the one-hot slot index%4, and every other address bit is kept |
| P10.QuadSlot | libpdbg/p10chip.c:245-247 | division and remainder by NUM_CORES_PER_EQ are the shift and mask the model uses |
| P10.AddressFields | libpdbg/p10chip.c:261-265 | an address is its untranslated bits plus its chiplet and region fields |
| P10.RegionOneHot | libpdbg/p10chip.c:247-260 | the region of slot s is 8 >> s |
| P10.TranslateChiplet | libpdbg/p10chip.c:244-262 | for indexes below 128 the chiplet is exactly 0x20 + index/4, with no truncation |
| P10.TranslateIdempotent | libpdbg/p10chip.c:261-265 | translating twice equals translating once |
| P10.TranslateDistinct | libpdbg/p10chip.c:241-268 | distinct cores below 128 translate one address to distinct addresses |
| Sbefifo.BufLen | libsbefifo/operation.c:76 | the buffer size is a multiple of 4 below 2^32 |
| Sbefifo.BufLenRoom | libsbefifo/operation.c:72-76 | without wrap-around, the buffer holds the expected reply plus 0x2000 bytes of FFDC, rounded up to a word |
| Sbefifo.BufLenWraps | libsbefifo/operation.c:76 | in uint32_t the size wraps: an expected length of 0xffffe000 gives 0 |
| Sbefifo.Be32OfBytes | libsbefifo/operation.c:108 | decoding a big-endian encoded word gives it back |
| Sbefifo.BytesOfBe32 | libsbefifo/operation.c:108 | encoding a decoded word gives back its four bytes |
| Sbefifo.ParsedRc | libsbefifo/operation.c:101-149 | the return code is 0 exactly when the reply was split into response data (status 0) |
| Sbefifo.WrappedOffset | libsbefifo/operation.c:108-111 | the offset `buflen - offset_word*4` is taken modulo 2^32, and is the plain difference when the distance fits in the reply |
| Sbefifo.Parse | libsbefifo/operation.c:95-142 | response data always lies within the reply, and no outcome reads past its end |
| Sbefifo.Frame | libsbefifo/operation.c:95-131 | a reply as the SBE lays it out has data, FFDC and 12 bytes of header |
| Sbefifo.ParseFrame | libsbefifo/operation.c:95-142 | splitting a well-formed reply gives back its data when status is 0, and its status and FFDC otherwise |
| Sbefifo.FrameOfParts | libsbefifo/operation.c:107-128 | a reply whose distance, header and status check out is the frame of its parts |
| Sbefifo.ParseDoneFrame | libsbefifo/operation.c:133-145 | a reply parsed as data is exactly data, header, status 0, FFDC and distance |
| Sbefifo.ParseFailedFrame | libsbefifo/operation.c:127-131 | a reply parsed as a failure is exactly its frame with that status and FFDC |
| Sbefifo.ParseAsWritten | libsbefifo/operation.c:101-142 | the C's own arithmetic, with uint32_t wrap-around, never rejects the distance word |
| Sbefifo.AsWrittenAgrees | libsbefifo/operation.c:107-142 | when the distance word is in range the C and the corrected split agree |
| Sbefifo.AsWrittenReadsPastReply | libsbefifo/operation.c:107-117 | a 12-byte reply with distance 0 makes the C read its header past the reply |
| Sbefifo.ParseRejectsPastEnd | libsbefifo/operation.c:107-117 | every reply the C would read past is rejected by the corrected split, with the same `*out_len` the C writes |
| Sbefifo.AsWrittenSameOutcome | libsbefifo/operation.c:101-149 | on every reply the C does not read past and whose distance is below 2^30, the corrected split gives the same code, `*out`, `*out_len` and FFDC as the C |
| Sbefifo.AsWrittenAcceptsWrappedDistance | libsbefifo/operation.c:108-145 | a 14-byte reply with distance 0x40000003 wraps to offset 2: the C returns its first two bytes, the corrected split rejects it |
| Sbefifo.WriteRc | libsbefifo/operation.c:41-55 | a write succeeds exactly when it wrote the whole message; a failure returns errno, and a short write returns EIO |
| Sbefifo.ReadInto | libsbefifo/operation.c:27-39 | a read delivers a prefix of what the device sent, at most the buffer size |
| Sbefifo.Context.Write | libsbefifo/operation.c:41-55 | one logged write, whose code is WriteRc |
| Sbefifo.Context.Read | libsbefifo/operation.c:27-39 | one logged read; errno on failure, else the delivered bytes |
| Sbefifo.Context.Finish | libsbefifo/operation.c:95-149 | return code, data, out_len and the FFDC store follow the corrected split `Parse` of the reply |
| Sbefifo.Context.Operation | libsbefifo/operation.c:57-150 | write the request (error returned as is), read into BufLen bytes (error returned as is), then split the reply with the corrected `Parse`; FFDC is stored only for an SBE failure, and *out is written only with response data |

## Left out

- Allocation failure (`ENOMEM` at libsbefifo/operation.c:77-79 and 134-138) is not modelled; `malloc` always succeeds.
- `usleep`, `PR_ERROR`/`PR_DEBUG`/`LOG` output and `thread_print_regs` are left out; they have no effect on state.
- The hardware-unit tables and `pdbg_hwunit_register` (libpdbg/p10chip.c:169-182, 270-287) and the chiplet `getring` accessor are not part of this model.
- The headers that define the opcode constants, SPR numbers, `PPC_BIT`/`PPC_BITMASK`/`GETFIELD` and `CHECK_ERR` are not part of this model. The model uses their Power ISA values and the usual macro definitions. `CHECK_ERR(x)` is taken to evaluate x once and return it when non-zero.
- The backend's `ram_setup` is taken to open the session on success and `ram_destroy` to close it. The backends are not part of this model.
- The `lpar` argument of `ram_instructions` is unused by the C and is left out.
- The encoders only log an out-of-range operand and still OR it in. Their field contracts are stated for in-range operands.
- `Opcodes.Mtocrf` requires in-range operands, because the C exits the process otherwise.
- `Opcodes.Mfocrf` requires `cr < 20`, so that the shift stays inside the 32-bit `1U`.
- `Getregs.ReadRegs`: the model takes a failed `getxer` to leave `regs->xer` as it was. The backend hook is not part of this model, and `libpdbg/chip.c:340` does not show what it writes on failure.
- `Getregs.RamGetRegs` keeps the C's order of reads but groups them into phases (`GetFrontRegs`, `GetGprs`, `GetHypervisorSprs`, `GetSupervisorSprs`). The fields of `struct thread_regs` are grouped the same way. The `regs == NULL` case is the caller discarding the result.
- `P10.State`: the return codes of the three bus reads are ignored, as in the C. On a failed read the model decodes the value the bus answered, while the C decodes whatever its variable held.
- Thread ids are required to be below 8, so that `PPC_BIT(56 + id)` and the per-thread byte stay within the 64-bit register. Core indexes are required to be non-negative C ints.
- `CondReg.AssembleCr` uses the mask 0xf000_0000 for the last field (i = 15). In the C, `0xf << 2*(i-1)` (`libpdbg/chip.c:272`) then shifts the signed int 0xf left by 28, which overflows `int` and is undefined behaviour. The model takes the value compilers produce.
- `P10.ReleaseChild` models `pdbg_target_probe` as "an unprobed thread is probed and becomes enabled" and `pdbg_target_release` as the thread's release hook followed by the Released status. The target tree code is not part of this model.
- Bus addresses are logged untranslated. `P10.Translate` is the translation the bus applies and is modelled on its own.
- `Sbefifo.Context.Operation` requires `BufLen(outLen) > 0`. `sbefifo_read` asserts this and aborts otherwise (`BufLenWraps` shows the sizes for which it fails).
- `Sbefifo.Context.Operation` (and `Sbefifo.Context.Finish` under it) splits the reply with the corrected `Parse`, not with the C's unchecked arithmetic. It therefore returns `EPROTO` for a distance of 2^30 or more whose `offset_word*4` wraps modulo 2^32 back inside the reply, which the C splits like any other (`AsWrittenAcceptsWrappedDistance`). `*out_len` is still set to the C's wrapped offset. On every reply the C does not read past and whose distance is below 2^30, the two give the same outcome (`AsWrittenSameOutcome`).
- `Sbefifo.Context.Operation` returns response data of length 0 as an empty sequence, where the C sets `*out` to NULL.
- The FFDC store (`sbefifo_ffdc_clear` / `sbefifo_ffdc_set`) is two fields of the context. Its file is not part of this model.

## Findings

| source | as written | input that shows it | evidently intended | confidence | as-written member | corrected member |
|---|---|---|---|---|---|---|
| libpdbg/chip.c:281-286 | `ram_putcr` passes a one-entry `results[]` with nine opcodes, so `ram_instructions` reads and writes `results[1..8]` past the array | any call of `ram_putcr` | a results array as long as the opcode list, `{value, 0, 0, 0, 0, 0, 0, 0, 0}` | not executed; high (the array sizes are visible in the source) | Registers.PutCrOverrun | Registers.RamPutCr |
| libsbefifo/operation.c:107-117 | the distance word is never checked, so the header and status are read at `buflen - 4*distance` wherever that falls | the 12-byte reply `c0 de 00 01 00 00 00 00 00 00 00 00` for cmd 1: distance 0 puts the header at byte 12, past the reply | reject with `EPROTO` a distance whose header, status or FFDC would fall outside the reply; the corrected split rejects every distance outside 3 to `buflen/4`, which also turns away the wrapping distances of 2^30 or more that the C handles inside the reply (see "## Left out") | not executed; medium | Sbefifo.AsWrittenReadsPastReply | Sbefifo.Parse |
