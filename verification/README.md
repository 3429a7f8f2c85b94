# The 32-bit ARM core of SkyEye, in Dafny

A model of the ARM emulator core (`MODE32` build, 32-bit program space, a v4 core) and of the RAM behind it, with proofs of
what it computes. The machine is one mutable object, `State.ArmState`: current registers, bank matrix, SPSRs, flags, NextInstr,
mapped memory. Each routine of the emulator is a method on it whose postcondition equates the new state, as a value of type
`Core`, with a function of the old one; the theorems are lemmas about those functions. Words are 32-bit vectors; what their
arithmetic means is stated over integers (`Words`). "The manual" is the ARM Architecture Reference Manual, ARM DDI 0100.

The parts, each with the theorem it leads to:

- `Support`, `Banks`: the lazily saved bank matrix is an architectural register file, through every run.
- `Exceptions`, `Vectors`: exceptions of any nesting depth unwind. `PsrWords`, `UserMode`: the PSRs; User mode is confined.
- `Alu`, `MultiWord`, `Manual`, `Shifter`, `DataPath`, `Execute`, `DataWords`: flags, shifter and data processing are exact, short cuts
  included, from the bits of the instruction word on.
- `Multiply`, `LongWords`: 64-bit products from 16-bit limbs are exact. `MainSwitch`, `Decoding`: all of the main switch that is
  modelled, with SWP, MRS and the ARM branches. `Conditions`, `Compares`: conditional execution. `Interworking`: branches by value.
- `Tables`, `Block`, `Transfer`, `UserBank`, `Stack`, `Single`, `MemoryBytes`, `Accesses`: loads and stores in
  both endiannesses, block transfers, push and pop. `CaretAborts`,
  `CaretExactly`: what a data abort does to LDM^ and STM^.
- `Thumb`, `ThumbBranch`, `ThumbFetch`, `ThumbMeaning`, `ThumbProof`, `ThumbProof4`, `ThumbProof5`, `ThumbTransfer`, `ThumbBlocks`,
  `Translation`: translating Thumb to ARM preserves meaning.
- `Pipeline`, `BlockPipeline`, `Emulator`, `PsrWrites`, `ThumbOrderly`: the prefetching loop cannot be told from a machine without a
  pipeline, and where it can.
- `Events`, `Timing`: the event wheel. `BankSearch`, `Ram`: the bank search and the RAM.

`dafny verify dfyconfig.toml` checks the whole project.

Where the code does not do what it seems meant to do, the model follows the code, and a lemma says exactly when it is right:

- ARMul_ScheduleEvent stores an unreduced time when the wheel was empty: `Timing.TimelyExactly`.
- The memory of the last bank in bank_ptr shows when banks overlap: `BankSearch.TransparentExactly`.
- MUL with Rd equal to Rm gives 0, so Thumb MUL Rd,Rd does: `ThumbProof4.MulExactly`.
- LDM^ without r15 and STM^ take a data abort while the user bank is switched in: the registers of the mode are lost, and with
  LDM^ the link (`CaretAborts.StmAbortExactly`, `CaretAborts.LdmLoses`). LDM^ with r15 switches no bank, but restores the CPSR after the
  abort, and so undoes the entry (`CaretAborts.LdmPcAbortExactly`). Over all states: `CaretExactly.StmExactly`, `CaretExactly.LdmExactly`.
- TSTP, TEQP, CMPP, CMNP and MSR to the CPSR can change T without a refill: `Emulator.PsrExactly`, `PsrWrites.TestsExactly`. A program on
  which this shows: `PsrWrites.PipelineShows`.
- Thumb ADD with r15 as first operand and Thumb CMP with r15 as first operand: `ThumbProof5.AddExactly`, `ThumbProof5.CmpExactly`.
- With late aborts the base register is written after the abort has been entered, so in Abort mode: `Accesses.LateBaseExactly`.
- Thumb LDMIA with the base among its registers leaves the moved base there: `ThumbBlocks.LdmiaBaseExactly`.
- SWP writes its destination before it takes a data abort: `Accesses.SwapFaultExactly`.
- LDR and LDM into r15 choose the state by bit 0, which cores before v5 do not: `Interworking.LdrGoes`, `Interworking.LdmGoes`.

## Model

| member | source | states |
|---|---|---|
| Support.SwitchMode | arch_arm/common/armsupp.c:248-308 | Moves the banked registers between Reg and RegBank as `Switched` says, for every pair of modes; `Banks` proves what that means |
| Support.SaveOld | arch_arm/common/armsupp.c:257-283 | The save half of the switch |
| Support.RestoreNew | arch_arm/common/armsupp.c:284-306 | The restore half of the switch |
| Banks.SwitchKeepsRegister | arch_arm/common/armsupp.c:248-308 | A switch between any two valid modes changes none of the 31 architectural registers, and ends in the bank of the new mode |
| Banks.RunKeepsRegisters | arch_arm/common/armsupp.c:248-327 | Through every sequence of mode switches and register writes, each architectural register holds the value last written to it (a register file that looks only at modes and writes), and Bank stays the bank of Mode |
| Banks.RunReads | arch_arm/common/armsupp.c:240-327 | After every sequence of mode switches and register writes, what the program reads in register r, in the mode it is then in, is what was last written to r in a mode that shares that register |
| Support.CPSRAltered | arch_arm/common/armsupp.c:175-220 | Switches the mode, sets flags, masks and T, and repacks r15 only to or from a 26-bit mode |
| Support.FixCPSR | arch_arm/common/armsupp.c:122-137 | MSR to the CPSR: the control, extension and status bytes only outside User mode |
| Support.GetSPSR | arch_arm/common/armsupp.c:141-147 | The SPSR of a mode, or the CPSR for a mode that has none |
| Support.FixSPSR | arch_arm/common/armsupp.c:159-170 | MSR to the SPSR of the current bank, when it has one |
| Exceptions.PackedStatus | arch_arm/common/armemu.h:155-164 | Unpacking the packed CPSR gives back NZCV, the sticky bit, I, F, T and the mode |
| Exceptions.CpsrReadsBack | arch_arm/common/armsupp.c:104-117 | Whatever is written to the CPSR is read back, except for the bits that do not exist, through any mode switch |
| Exceptions.SetCpsrRegister | arch_arm/common/armsupp.c:114-117 | Setting the CPSR changes no architectural register |
| Exceptions.Abort | arch_arm/common/arminit.c:488-545 | Exception entry from a 32-bit mode, proved against `Entered` |
| Exceptions.EntryEffect | arch_arm/common/armemu.h:199-209 | Entry sets mode, I (and F for FIQ and reset), clears T, keeps the flags, saves the CPSR in the SPSR of the exception's bank, and sets r14 and r15 |
| Exceptions.EntryRegister | arch_arm/common/arminit.c:488-545 | Entry changes no architectural register but r14 of the exception's bank and r15 |
| Exceptions.LinkReturns | arch_arm/common/arminit.c:490-492 | From ARM and from Thumb state the link value and the documented return offset give the architectural resume address |
| Exceptions.ReturnEffect | arch_arm/common/armemu32.c:4387-4418 | MOVS pc,lr, SUBS pc,lr,#4 and #8, executed by the data path from any handler state, restore the status from the SPSR, keep every register, and go to the return address |
| Exceptions.HandlerKeeps | arch_arm/common/arminit.c:488-545 | A well-nested handler of any depth keeps its link register, its SPSR, and everything of the programs below it |
| Exceptions.Unwinds | arch_arm/common/arminit.c:488-549 | For every handler tree with pairwise distinct active banks, from ARM or Thumb state: after the return, mode, T, I, F, NZCVQ, all registers and SPSRs of the interrupted programs and the resume address are right |
| Exceptions.Undisturbed | arch_arm/common/arminit.c:488-549 | The interrupted program sees its own r0 to r14 and status again, and resumes at the right address |
| Exceptions.NestExactly | arch_arm/common/arminit.c:505-540 | The status an exception saved survives the entry to a second one, from every state, if and only if the two are not entered in the same mode (Reset and SWI share one, and so do the two aborts): the bank rule of well-nested handlers is exact |
| Exceptions.FieldBytes | arch_arm/common/armsupp.c:126-134 | MSR takes each byte of the PSR from the operand exactly where the field mask selects it |
| Exceptions.MsrWrites | arch_arm/common/armsupp.c:122-137 | Outside User mode the CPSR reads back after MSR with the selected bytes replaced, through the mode switch |
| Vectors.SevenVectors | arch_arm/common/arminit.c:505-546 | From any 32-bit mode the seven exceptions go to 0, 4, 8, 12, 16, 24 and 28, plus 0xFFFF0000 with high vectors, plus the remap offset, modulo 2^32, and are taken in modes 0x13, 0x1B, 0x13, 0x17, 0x17, 0x12 and 0x11 |
| Vectors.SwiTaken | arch_arm/common/armemu32.c:3820-3850 | SWI goes to 8 in mode 0x13, with the address of the next instruction in r14 |
| Vectors.UndefinedTaken | arch_arm/common/armsupp.c:660-662 | An ARM word that is no modelled instruction goes to 4 in mode 0x1B, with the address of the next instruction in r14 |
| Vectors.ThumbUndefinedTaken | arch_arm/common/armemu32.c:670-674 | So does a halfword that the Thumb decoder does not know |
| PsrWords.MsrSpsrWord | arch_arm/common/armsupp.c:159-170 | MSR to the SPSR, from the instruction word: the chosen bytes of the SPSR of the mode, and nothing else; nothing in a mode without an SPSR |
| PsrWords.MsrCpsrWord | arch_arm/common/armsupp.c:122-137 | MSR to the CPSR outside User mode, from the instruction word: the chosen bytes of the operand read back, and the registers, SPSRs and memory are kept |
| Alu.AddFlagsExact | arch_arm/common/armemu32.c:1234-1249 | The flags of an addition with carry in are exact: the `(lhs | rhs) >> 30` short cut loses no carry, overflow or sign |
| Alu.SubFlagsExact | arch_arm/common/armemu32.c:1128-1140 | C and V of a subtraction with borrow are exact, short cut included |
| MultiWord.AdcsChainExact | arch_arm/common/armemu32.c:1290-1305 | ADCS over limb vectors of any length, with carry in: exact sum, carry out, sign and signed overflow |
| MultiWord.AddsChainExact | arch_arm/common/armemu32.c:1234-1249 | ADDS then any number of ADCS: the exact multiword sum, C the final carry, V exactly the signed overflow |
| MultiWord.SbcsChainExact | arch_arm/common/armemu32.c:1350-1365 | SBCS over limb vectors of any length, with borrow in |
| MultiWord.SubsChainOrder | arch_arm/common/armemu32.c:1128-1140 | SUBS then SBCS: the exact difference; CS, CC, GE and LT decide the unsigned and signed order of the whole vectors |
| MultiWord.CmpOrder | arch_arm/common/armemu32.c:731-872 | After CMP every condition decides the order it names, and EQ and NE equality |
| Manual.AdcIsAdded | arch_arm/common/armsupp.c:365-379 | Result and flags of an addition are CarryFrom and OverflowFrom of the manual |
| Manual.SbcIsSubtracted | arch_arm/common/armsupp.c:365-391 | Result and flags of a subtraction are BorrowFrom and OverflowFrom of the manual, for SUBS and for CMP |
| Shifter.RegShiftIsManual | arch_arm/common/armemu32.c:4237-4358 | GetDPSRegRHS with a register amount: value and carry are n one-place shifts, for all amounts 0 to 255 |
| Shifter.ImmShiftIsManual | arch_arm/common/armemu32.c:4310-4358 | GetDPSRegRHS with a constant amount, LSR #32, ASR #32 and RRX included |
| Shifter.RegShiftValueIsManual | arch_arm/common/armemu32.c:4151-4232 | GetDPRegRHS agrees on the value |
| Shifter.ImmShiftValueIsManual | arch_arm/common/armemu32.c:4445-4481 | GetDPRegRHS and GetLSRegRHS agree on the value for constant amounts |
| DataPath.MacroFilter | arch_arm/common/armemu.h:339-343 | The macro keeps LSL #0, whose carry expression C leaves undefined, away from the routine |
| DataPath.GetDPRegRHS | arch_arm/common/armemu32.c:4151-4232 | The operand and the advanced r15, proved against `RegOperand` |
| DataPath.GetDPSRegRHS | arch_arm/common/armemu32.c:4237-4358 | The operand and C, proved against `RegOperandS` |
| DataPath.WriteR15 | arch_arm/common/armemu32.c:4362-4383 | r15 masked by the state, and a refill asked for |
| DataPath.WriteSR15 | arch_arm/common/armemu32.c:4387-4418 | The CPSR is restored first outside the user bank |
| DataPath.WriteR15Branch | arch_arm/common/armemu32.c:4423-4439 | T, r15, the CPSR word and NextInstr, proved against `R15Branched`, whose meaning in numbers is `Interworking.InterworkedIs` |
| Interworking.InterworkedIs | arch_arm/common/armemu32.c:4423-4439 | A branch by value goes to Thumb code at the number less 1 if it is odd, and to ARM code at the number rounded down to a multiple of 4 otherwise |
| Interworking.JumpingIs | arch_arm/common/armemu32.c:4362-4383 | Other writes of r15 round the number down to an instruction of the present state |
| DataPath.ExecuteDataProcessing | arch_arm/common/armemu32.c:942-2397 | The sixteen data-processing instructions with and without S, immediate and register operands, r15 as operand and destination |
| DataPath.ExecuteMsrCpsr | arch_arm/common/armemu32.c:1532-1655 | MSR to the CPSR; the register form cannot set T |
| DataPath.ExecuteMsrSpsr | arch_arm/common/armemu32.c:1811-1894 | MSR to the SPSR |
| Execute.ArithmeticMeans | arch_arm/common/armemu32.c:1098-1415 | The result and flags of all eight arithmetic instructions are the manual's |
| Execute.ArithmeticPuts | arch_arm/common/armemu32.c:1098-1415 | The S form writes that result and those flags, and nothing else |
| Execute.LogicalPuts | arch_arm/common/armemu32.c:1015-1023 | The S form of a logical instruction: N and Z of the result, C of the shifter, V kept |
| DataWords.OperandIs | arch_arm/common/armemu.h:330-345 | The operand macros compute the manual's shifter operand and carry: rotated immediates, shifts by constants and by registers, with r15 further on in the last case |
| DataWords.AmountNumber | arch_arm/common/armemu32.c:4254-4255 | The amount of a shift by a register is its number modulo 256 |
| DataWords.DataWord | arch_arm/common/armemu32.c:942-2397 | Each of the sixteen operations, from bits 20 to 24 of the word: the whole machine after it, from the operands as numbers or bits, when the destination is not r15 |
| MainSwitch.Dispatch | arch_arm/common/armemu32.c:873-3851 | The main switch on the machine: data processing, multiplications of 32 and 64 bits, single and block transfers, SWP, MRS, MSR, BX, B and BL, SWI, proved against `Dispatched` |
| MainSwitch.KindsExclude | arch_arm/common/armemu32.c:942-3851 | The masks that tell the instructions apart exclude each other |
| Decoding.MultiplyCases | arch_arm/common/armemu32.c:942-1415 | The words taken as multiplications are those of cases 0x00 to 0x03 and 0x08 to 0x0f with 9 in bits 4 to 7 |
| Decoding.HalfCases | arch_arm/common/armemu32.c:942-2226 | Halfword and signed transfers: cases below 0x20 with 11, or in the odd cases 13 or 15, in bits 4 to 7 |
| Decoding.TransferCases | arch_arm/common/armemu32.c:2399-3203 | Word and byte transfers: cases 0x40 to 0x7f, without the undefined ones |
| Decoding.HighCases | arch_arm/common/armemu32.c:3205-3851 | Block transfers, branches and SWI: cases 0x80 to 0x9f, 0xa0 to 0xbf and 0xf0 to 0xff |
| Decoding.SpecialCases | arch_arm/common/armemu32.c:1419-1780 | SWP, MRS and BX |
| Decoding.MsrCases | arch_arm/common/armemu32.c:1532-2322 | MSR: cases 0x12, 0x16, 0x32 and 0x36 with r15 as destination |
| Decoding.DataCases | arch_arm/common/armemu32.c:942-2397 | Data processing: the other cases below 0x40, without the tests that do not set the flags |
| Conditions.ConditionDecides | arch_arm/common/armemu32.c:692-872 | For every ARM word and every state: if the condition in bits 28 to 31, written out in N, Z, C and V, fails, nothing changes; if it holds, the effect is that of the same word with AL |
| Compares.ConditionalAfterCompare | arch_arm/common/armemu32.c:692-872 | After CMP a,b an instruction with a condition is executed exactly when the relation it names holds between a and b as unsigned or signed numbers |
| MainSwitch.ArmBranchTarget | arch_arm/common/armemu32.c:3358-3422 | B and BL go to pc + 8 plus four times the signed 24-bit offset; BL links to pc + 4 |
| MainSwitch.Swap | arch_arm/common/armvirt.c:671-698 | ARMul_SwapWord and ARMul_SwapByte: the old contents, and the memory after the write |
| MainSwitch.SwapExchanges | arch_arm/common/armemu32.c:1470-1493 | SWP and SWPB on a mapped address exchange register and location, and change nothing else in the machine |
| MainSwitch.SwapTwice | arch_arm/common/armemu32.c:1470-1493 | SWP of a register with an aligned word, done twice, restores the whole machine |
| Accesses.SwapFaultExactly | arch_arm/common/armemu32.c:1470-1493 | SWP and SWPB from an unmapped address take the data abort and leave memory alone; the destination is kept if and only if it held what an unmapped read returns |
| MainSwitch.MrsReads | arch_arm/common/armemu32.c:1494-1497 | In ARM state MRS reads the packed CPSR, or the SPSR of the mode |
| Interworking.BxGoes | arch_arm/common/armemu32.c:4423-4439 | BX: with an odd number x to Thumb code at x - 1, otherwise to ARM code at x - x % 4; T, bit 5 of the CPSR word and the refill; no other register changes |
| Interworking.LdrGoes | arch_arm/common/armemu32.c:4515-4536 | LDR into r15, in every addressing mode, does so with the word read; the base is written if the mode says so, and nothing else changes |
| Interworking.LdmGoes | arch_arm/common/armemu32.c:4872-4957 | LDM with r15 does so with the last word of the block; the other registers are loaded and the base is written back |
| Multiply.Add32 | arch_arm/common/armemu32.c:5258-5271 | The sum and its exact carry |
| Multiply.Multiplied64 | arch_arm/common/armemu32.c:5310-5320 | Four 16-bit limb products added with their carries are the exact 64-bit product |
| Multiply.WideProduct | arch_arm/common/armemu32.c:5296-5332 | With the sign handling: the product modulo 2^64, unsigned or two's complement, for all operands |
| Multiply.Multiply64 | arch_arm/common/armemu32.c:5276-5343 | The routine on the machine, illegal register choices included |
| Multiply.MultiplyAdd64 | arch_arm/common/armemu32.c:5366-5393 | The accumulating routine on the machine |
| Multiply.LongProducts | arch_arm/common/armemu32.c:5276-5343 | RdHi:RdLo is the exact product also when Rs is a destination; the S form sets N and Z from all 64 bits; nothing else changes |
| Multiply.LongAccumulation | arch_arm/common/armemu32.c:5366-5393 | The product is added to the old RdHi:RdLo modulo 2^64; N and Z from the 64-bit result |
| Multiply.LongTestFlags | arch_arm/common/armemu32.c:5340-5343 | The one-word test word gives N and Z of the 64-bit result |
| Multiply.ExecuteMultiply | arch_arm/common/armemu32.c:959-971 | MUL, MLA and S forms, Rd equal to Rm included |
| LongWords.ShortWord | arch_arm/common/armemu32.c:942-1096 | MUL and MLA, from the instruction word: which registers are multiplied, added and written, modulo 2^32, and the flags |
| LongWords.LongWord | arch_arm/common/armemu32.c:1195-1415 | UMULL, UMLAL, SMULL and SMLAL, from the instruction word (cases 0x08 to 0x0f): signed or unsigned, added to the old pair or not, exact modulo 2^64; flags with bit 20 only; nothing else changes |
| Multiply.LowProduct | arch_arm/common/armemu32.c:965-968 | The 32-bit product is the low word of the unsigned and of the signed product |
| Tables.InitBitList | arch_arm/common/arminit.c:55-65 | The counting loops leave 4 times the number of ones of each index |
| Tables.InitImmedTable | arch_arm/common/arminit.c:51-53 | The table holds the rotated immediates |
| Tables.ImmedLookup | arch_arm/common/armemu.h:334-337 | The look-up by twelve instruction bits is the rotated immediate |
| Tables.ImmediateIsManual | arch_arm/common/arminit.c:51-53 | An immediate is its low byte rotated right by one-place steps, twice its top four bits |
| Tables.NumRegs | arch_arm/common/armemu.h:362-363 | LSMNumRegs, two table look-ups, is four times the length of the register list |
| Block.NthReg | arch_arm/common/armsupp.c:331-338 | The loop returns the register at that position of the ascending list |
| Block.ListMeaning | arch_arm/common/armemu32.c:4886-4912 | The registers visited are exactly those of the list, in ascending order |
| Block.LoadMult | arch_arm/common/armemu32.c:4872-4957 | LDM on the machine, aborts included |
| Block.LoadSMult | arch_arm/common/armemu32.c:4968-5063 | LDM^ on the machine, with the bank switch, r15, and the aborts, also with an abort pending on entry |
| Block.StoreMult | arch_arm/common/armemu32.c:5083-5157 | STM on the machine, aborts included |
| Block.StoreSMult | arch_arm/common/armemu32.c:5167-5243 | STM^ on the machine, aborts included |
| Transfer.ExecuteBlockTransfer | arch_arm/common/armemu32.c:3205-3355 | The 32 cases of block transfers: start address and new base from the table |
| Transfer.StartWord | arch_arm/common/armemu32.c:3205-3355 | The first word of the block in each of the four addressing modes |
| Transfer.NewBaseNumber | arch_arm/common/armemu32.c:3205-3355 | The written-back base is the base plus or minus 4 times the number of registers |
| Transfer.LdmMeaning | arch_arm/common/armemu32.c:4872-4957 | LDM: the k-th listed register holds word start + 4k, the base is written back last, no other register and no memory changes |
| Transfer.StmMeaning | arch_arm/common/armemu32.c:5083-5157 | STM: word start + 4k holds the k-th listed register (the base before write-back), no other word changes |
| UserBank.LdmUserBank | arch_arm/common/armemu32.c:4968-5063 | LDM^ from any privileged mode loads exactly the user registers of the list; every other architectural register, the SPSRs, Mode and Bank are unchanged |
| UserBank.StmUserBank | arch_arm/common/armemu32.c:5167-5243 | STM^ from any privileged mode stores the user registers and changes no register |
| CaretAborts.StmAbortExactly | arch_arm/common/armemu32.c:5167-5243 | STM^ that meets an unmapped word is a proper data abort if and only if it is not executed in Abort mode and the registers of the mode hold what those of the user bank do |
| CaretAborts.StmLoses | arch_arm/common/armemu32.c:5167-5243 | Otherwise each register of the mode's own bank is replaced by that of the user bank; all others are kept |
| CaretAborts.LdmLoses | arch_arm/common/armemu32.c:4968-5063 | LDM^ without r15 that meets an unmapped word leaves the link in r14 of the user bank, and r14 of Abort mode as it was |
| CaretAborts.LdmPcUndone | arch_arm/common/armemu32.c:5018-5045 | LDM^ with r15 that meets an unmapped word takes the abort and then goes back to the status of before, at the vector |
| CaretAborts.LdmPcAbortExactly | arch_arm/common/armemu32.c:5018-5045 | So it is a proper data abort if and only if it is executed in Abort mode, in ARM state, with I set |
| CaretAborts.LdmPcBase | arch_arm/common/armemu32.c:5022-5033 | After it the base register, if not in the list, has the new value exactly with late aborts, and the old one otherwise |
| CaretExactly.StmExactly | arch_arm/common/armemu32.c:5167-5243 | In a privileged mode, STM^ without write-back stores the user registers and keeps all registers, or is a proper data abort, from every state if and only if the block is mapped or the mode is System |
| CaretExactly.LdmExactly | arch_arm/common/armemu32.c:4968-5063 | In a privileged mode, LDM^ without r15 and write-back loads the user registers and keeps all others, or is a proper data abort, from every state if and only if the block is mapped |
| CaretExactly.LdmReturns | arch_arm/common/armemu32.c:5018-5045 | A mapped LDM^ with r15 loads the registers of the mode in use, restores the status from the SPSR, and goes to the last word, aligned for the restored state |
| Stack.RoundTrip | arch_arm/common/armemu32.c:3258-3291 | STMDB Rb!, then anything that leaves the saved words and Rb alone, then LDMIA Rb! restores every listed register and Rb |
| Stack.FrameRestores | arch_arm/common/armemu32.c:3258-3291 | The same for programs of frames nested to any depth that keep the stack discipline |
| Stack.RunKeeps | arch_arm/common/armemu32.c:3258-3291 | A disciplined program keeps the base register and the words above its stack pointer |
| Stack.LoadAborts | arch_arm/common/armemu32.c:4889-4920 | A multiple load aborts exactly when some word of the block is not mapped |
| Stack.LdmAborts | arch_arm/common/armemu32.c:4934-4957 | An aborted LDM leaves the base (if not in the list) and memory as they were |
| Stack.StmAborts | arch_arm/common/armemu32.c:5154-5160 | An aborted STM writes the base back only with late aborts |
| UserMode.StepConfined | arch_arm/common/armsupp.c:122-137 | MSR, PSR-restoring tests, S-bit writes to r15 and LDM^ with r15 in User mode change only current registers, flags and fetch state |
| UserMode.RunConfined | arch_arm/common/armsupp.c:122-220 | Every run of them keeps mode, I, F, T, the bank matrix, the SPSRs and memory |
| Single.ExecuteWordTransfer | arch_arm/common/armemu32.c:2399-3203 | LDR, STR, LDRB, STRB in all addressing modes, with the base written back, data aborts (early and late) and loads of r15 included |
| Single.ExecuteHalfTransfer | arch_arm/common/armemu32.c:88-283 | LDRH, LDRSH, LDRSB, STRH in all addressing modes |
| Single.GetLSRegRHS | arch_arm/common/armemu32.c:4445-4481 | The offset of a register form |
| Single.AlignIsRotation | arch_arm/common/armsupp.c:686-692 | A word loaded from an unaligned address is rotated right by its byte offset, in one-place steps |
| Single.SignByteNumber | arch_arm/common/armemu32.c:4569-4591 | LDRSB: the register holds the byte as a signed number |
| Single.SignHalfNumber | arch_arm/common/armemu32.c:4542-4563 | LDRSH: the register holds the halfword as a signed number |
| MemoryBytes.LaneIn | memory/ram.c:32-44 | The byte lane of an address is that byte of the number of the word, counted from the end that the endianness says |
| MemoryBytes.HalfLaneIn | memory/ram.c:46-60 | The halfword lane is two such bytes |
| MemoryBytes.WordIn | memory/ram.c:62-73 | An aligned word is the sum of its four bytes in the order of the endianness |
| Accesses.WordLoad | arch_arm/common/armemu32.c:4515-4591 | LDR and LDRB from the instruction word, in all addressing modes, up and down: the address and the new base as numbers, the byte of memory in either endianness, the word rotated by its byte offset; no other register changes |
| Accesses.WordStore | arch_arm/common/armemu32.c:4781-4870 | STR and STRB: every byte of memory after the store, the base, and nothing else |
| Accesses.HalfLoad | arch_arm/common/armemu32.c:84-283 | LDRH, LDRSB and LDRSH: the bytes and their sign |
| Accesses.HalfStore | arch_arm/common/armemu32.c:4810-4840 | STRH: every byte of memory after the store |
| Accesses.ByteOfWord | arch_arm/common/armvirt.c:472-475 | The four LDRBs of an aligned word are the four bytes of the LDR, in the order of the endianness |
| Accesses.HalfOfBytes | arch_arm/common/armvirt.c:380-400 | LDRH is its two LDRBs |
| Accesses.StoredByteLoads | arch_arm/common/armvirt.c:616-630 | What STRB stored is loaded again, and the other bytes are as they were |
| Accesses.StoredHalfLoads | arch_arm/common/armvirt.c:556-572 | So with the two bytes of STRH |
| Accesses.WordFaults | arch_arm/common/armemu32.c:4515-4536 | An unmapped address takes the data abort; with late aborts the base is written after it |
| Accesses.HalfFaults | arch_arm/common/armemu32.c:84-283 | So with halfword and signed transfers |
| Accesses.LateBaseExactly | arch_arm/common/armemu32.c:2399-3203 | That base reaches the register of the aborted program if and only if Abort mode shares the register, or it had that value already |
| Thumb.ThumbDecode | arch_arm/common/thumbemu.c:42-451 | The decoder on the machine: translation, undefined, or a branch executed at once |
| Thumb.TranslatedAlways | arch_arm/common/thumbemu.c:60-355 | Every translated instruction has condition AL |
| ThumbBranch.BranchTarget | arch_arm/common/thumbemu.c:415-420 | B goes to pc + 4 plus twice the signed 11-bit offset |
| ThumbBranch.ConditionalTarget | arch_arm/common/thumbemu.c:355-410 | Bcc branches exactly when its condition holds, to pc + 4 plus twice the signed 8-bit offset |
| ThumbBranch.LinkTarget | arch_arm/common/thumbemu.c:424-451 | The paired BL goes to pc + 4 plus the sign-extended 23-bit offset and links to (pc + 4) | 1 |
| ThumbBranch.LinkReturn | arch_arm/common/thumbemu.c:424-451 | r14 holds the address after the pair, plus 1, as a number |
| ThumbBranch.SecondHalf | arch_arm/common/thumbemu.c:437-451 | The second half by itself goes to r14 plus twice its field and links |
| ThumbFetch.FetchesPair | arch_arm/common/armvirt.c:252-282 | In either endianness a Thumb fetch holds the halfword at the address and the next one where the decoder looks for them |
| ThumbProof.Translates1 | arch_arm/common/thumbemu.c:61-70 | Format 1: the ARM word shifts as the manual says |
| ThumbProof.Translates2 | arch_arm/common/thumbemu.c:71-86 | Format 2 |
| ThumbProof.Translates3 | arch_arm/common/thumbemu.c:87-103 | Format 3 |
| ThumbProof4.Translates4 | arch_arm/common/thumbemu.c:109-155 | Format 4, MUL with two different registers; a register shift also advances r15 |
| ThumbProof4.MulExactly | arch_arm/common/thumbemu.c:128-156 | MUL is translated correctly from every state exactly when its registers differ |
| ThumbProof4.MulLost | arch_arm/common/thumbemu.c:128-156 | MUL Rd,Rd of 1 gives 0 |
| ThumbProof5.MovBxTranslate | arch_arm/common/thumbemu.c:157-208 | Format 5: MOV of high registers, r15 included, and BX |
| ThumbProof5.AddExactly | arch_arm/common/thumbemu.c:157-208 | ADD of high registers, at any even address: right if and only if the first operand is not r15 or r15 is word-aligned |
| ThumbProof5.CmpExactly | arch_arm/common/thumbemu.c:157-208 | CMP of high registers: right from every state if and only if the first operand is not r15 |
| ThumbProof5.CmpRan | arch_arm/common/thumbemu.c:157-208 | With r15 it becomes CMPP, and restores the CPSR instead of comparing |
| ThumbTransfer.Translates6 | arch_arm/common/thumbemu.c:210-215 | Format 6 |
| ThumbTransfer.Translates7 | arch_arm/common/thumbemu.c:216-232 | Format 7 |
| ThumbTransfer.Translates8 | arch_arm/common/thumbemu.c:233-245 | Format 8 |
| ThumbTransfer.Translates9 | arch_arm/common/thumbemu.c:246-264 | Format 9 |
| ThumbTransfer.Translates10 | arch_arm/common/thumbemu.c:265-275 | Format 10 |
| ThumbTransfer.Translates11 | arch_arm/common/thumbemu.c:276-284 | Format 11 |
| ThumbTransfer.Translates12 | arch_arm/common/thumbemu.c:285-303 | Format 12 |
| ThumbTransfer.Translates13 | arch_arm/common/thumbemu.c:304-313 | Format 13 |
| ThumbBlocks.PushMeaning | arch_arm/common/thumbemu.c:318-328 | PUSH: the registers named, in ascending order, in the words below SP, and SP at the first of them |
| ThumbBlocks.PopMeaning | arch_arm/common/thumbemu.c:318-328 | POP without r15 |
| ThumbBlocks.PopPcMeaning | arch_arm/common/thumbemu.c:318-328 | POP with r15 also goes to the last word, to ARM or Thumb code by its bit 0 |
| ThumbBlocks.StmiaMeaning | arch_arm/common/thumbemu.c:328-337 | STMIA |
| ThumbBlocks.LdmiaMeaning | arch_arm/common/thumbemu.c:328-337 | LDMIA; the base is moved also if it is among the registers loaded |
| ThumbBlocks.LdmiaBaseExactly | arch_arm/common/thumbemu.c:328-337 | In that case it has the word it should be loaded with if and only if that is the moved base |
| ThumbBlocks.ThumbSwi | arch_arm/common/thumbemu.c:344-356 | SWI in Thumb state, through the decoder: Supervisor mode, address 8, the next halfword in r14 |
| ThumbBlocks.ThumbRuns | arch_arm/common/armemu32.c:662-690 | A translated Thumb instruction does what the ARM word does |
| Translation.Decodes | arch_arm/common/thumbemu.c:60-336 | The decoder takes each covered halfword to the word of its format |
| Translation.TranslationPreservesMeaning | arch_arm/common/thumbemu.c:60-336 | For every halfword of formats 1 to 4 and 6 to 13 and every state: the ARM word leaves all registers, r15 included, flags, status and memory as the Thumb instruction does, data aborts included; a shift by a register leaves r15 advanced besides |
| Emulator.Loop.FetchNext | arch_arm/common/armemu32.c:367-472 | The switch on NextInstr with its latches, on the machine |
| Pipeline.FetchKeeps | arch_arm/common/armemu32.c:367-472 | After every fetch r15 is pc + 2 instructions, the latches hold the next two, and the instruction is the one at pc |
| Pipeline.StepsAgree | arch_arm/common/armemu32.c:358-472 | One iteration agrees with a machine without a pipeline, exceptions included |
| Pipeline.RunsAgree | arch_arm/common/armemu32.c:358-472 | On every run whose instructions keep r15, T and NextInstr in step and do not store into a prefetched slot, with exceptions anywhere, the loop executes the same (pc, instruction) pairs and reaches the same state as the machine without a pipeline |
| Pipeline.NextAgrees | arch_arm/common/armemu32.c:367-472 | After an instruction that asks for no refill, the next one is the same if and only if the slot prefetched before it still holds what there is to fetch |
| Pipeline.EnteredProper | arch_arm/common/armemu.h:199-209 | Exception entry always asks for a refill |
| Emulator.Loop.Iterate | arch_arm/common/armemu32.c:358-3854 | One iteration of the loop on the machine: fetch, an interrupt or Thumb decoding, condition and main switch |
| Emulator.DispatchedProper | arch_arm/common/armemu.h:265-300 | Every modelled ARM instruction that does not store into r15 without a refill or change T by a PSR write advances r15 exactly when it sets bit 1 of NextInstr, and changes T only with a refill |
| Emulator.PsrExactly | arch_arm/common/armemu32.c:1512-1517 | TSTP, TEQP, CMPP, CMNP and MSR to the CPSR do so if and only if the T bit of the word they write is the present one |
| PsrWrites.TestsExactly | arch_arm/common/armemu32.c:1512-1517 | For the tests that is: if and only if the T bit of the SPSR is the present one |
| PsrWrites.MsrRegisterProper | arch_arm/common/armemu32.c:1641-1650 | MSR with a register, in ARM state, always does |
| PsrWrites.PipelineShows | arch_arm/common/armemu32.c:367-472 | A TEQP that sets T: the instruction executed next is not the one that is there |
| BlockPipeline.TransferredProper | arch_arm/common/armemu32.c:4872-5243 | So does every block transfer: any mode, any list, aborts and restored PSRs included |
| BlockPipeline.ListHasPc | arch_arm/common/armemu32.c:4914-4916 | r15 is in the list exactly when bit 15 is set |
| Emulator.BranchProper | arch_arm/common/thumbemu.c:337-451 | So do the Thumb branches |
| Emulator.EmulatedProper | arch_arm/common/armemu32.c:666-735 | So does every iteration, in ARM and in Thumb state |
| ThumbOrderly.ThumbIsOrderly | arch_arm/common/thumbemu.c:42-451 | In Thumb state there is no other condition than that the instruction is not CMP with r15 as first operand |
| Emulator.EmulationUnpipelined | arch_arm/common/armemu32.c:358-472 | The emulator with these instructions, from an empty pipeline, on every orderly run: the same instructions at the same addresses and the same final state as a machine that fetches each instruction when it executes it |
| Events.EventWheel.ScheduleEvent | arch_arm/common/armsupp.c:700-715 | The event goes to the front of its slot; Now is stored unreduced when the wheel was empty |
| Events.EventWheel.EnvokeEvent | arch_arm/common/armsupp.c:719-732 | Which slots are called, in which order, and the new Now |
| Events.EventWheel.EnvokeList | arch_arm/common/armsupp.c:736-748 | Both loops, with the count; terminates for every range |
| Events.ScheduleCounts | arch_arm/common/armsupp.c:700-715 | EventSet is the number of nodes and exactly one node is added, whatever Now is |
| Events.EnvokeCounts | arch_arm/common/armsupp.c:719-748 | EventSet stays the number of nodes; no node is lost or called twice, whatever Now is |
| Timing.FiresWhenDue | arch_arm/common/armsupp.c:719-732 | A slot is called exactly when the events in it are due, across wrap-arounds |
| Timing.EnvokeOnTime | arch_arm/common/armsupp.c:719-748 | No event is called early, and none that is due stays behind |
| Timing.RunTimely | arch_arm/common/armsupp.c:700-748 | For every run, each event is called once, at the first envocation at or after its due time, or is still pending and not due |
| Timing.TimelyExactly | arch_arm/common/armsupp.c:704-706 | Filling an empty wheel is timely for all delays and envocations exactly when the time is below 1024 or a multiple of 1024 |
| Timing.TooEarly | arch_arm/common/armsupp.c:704-706 | Otherwise an event is called at once that is due only later |
| BankSearch.MemMap.BankPtr | memory/bank_ops.c:9-22 | The search with its remembered bank, the terminator included |
| BankSearch.TransparentExactly | memory/bank_ops.c:9-22 | bank_ptr equals a fresh first-match search on every call of every sequence exactly when no two banks overlap unless the later one is hidden altogether |
| BankSearch.DisjointUnambiguous | memory/bank_ops.c:9-22 | Disjoint banks meet that condition |
| BankSearch.Shadowed | memory/bank_ops.c:9-22 | A two-call sequence that goes wrong otherwise |
| Ram.Memory.MemReadByte | memory/ram.c:32-44 | The byte lane of the word, in either endianness |
| Ram.Memory.MemReadHalfword | memory/ram.c:46-60 | The halfword lane of the word |
| Ram.Memory.MemReadWord | memory/ram.c:62-73 | The word of the address |
| Ram.Memory.MemWriteByte | memory/ram.c:75-93 | The byte lane is replaced |
| Ram.Memory.MemWriteHalfword | memory/ram.c:95-114 | The halfword lane is replaced |
| Ram.Memory.MemWriteWord | memory/ram.c:116-131 | The word is replaced |
| Ram.ReadHalfBytes | memory/ram.c:46-60 | An aligned halfword is its two bytes, in the order of the endianness |
| Ram.ReadWordBytes | memory/ram.c:62-73 | An aligned word is its four bytes |
| Ram.WriteByteFrame | memory/ram.c:75-93 | A byte write changes its own byte and no other mapped byte |
| Ram.WriteHalfFrame | memory/ram.c:95-114 | An aligned halfword write changes its own two bytes and no other |
| Ram.WriteWordFrame | memory/ram.c:116-131 | An aligned word write changes its own four bytes and no other |
| Ram.RunRefines | memory/ram.c:32-132 | Every interleaving of aligned byte, halfword and word accesses reads the same values as one flat byte map and leaves the two in agreement |

## Left out

- The 26-bit build (armemu.c), and entering or leaving 26-bit modes beyond what CPSRAltered does to r15.
- Cycle counters; time is a parameter of the event wheel. ARMul_Icycles and the like do not appear.
- Debugger stops, RESUME, logging, profiling, dynamic translation, io_do_cycle and AbortAddr. An unmapped fetch delivers the abort word, and the prefetch abort that AbortAddr would make of it is one of the exceptions that can be taken anywhere; that such a fetch does not clear the abort signal does not appear.
- MainSwitch.Dispatch: coprocessor instructions, LDRD and STRD, the v5 and v6 instructions, block transfers with an empty list (which C leaves undefined) and the encodings with bits 4 and 7 set that no v4 instruction has are not modelled; the case of the prefetch abort word among the SWIs needs AbortAddr.
- Emulator.EmulationUnpipelined: what `MainSwitch.Modelled` does not hold of counts as undefined. Orderly runs leave out instructions that store a product, an exchanged word, a PSR or a written-back base in r15, and CPSR writes from or to a 26-bit mode; stores into a prefetched slot, because the emulator then executes the old instruction; and T changed by a PSR write.
- The MMU of armvirt.c: memory is a map from word numbers to words, and a word that is not mapped faults. Bytes and halfwords are lanes of it as in ram.c.
- Resources of the host: malloc failures, messages to stderr, `unsigned long` in mem_write_halfword (modelled as 32 bits wide), shifts by 32 in ROTATER (modelled as no rotation).
- Image loading (mem_reset), other devices and I/O banks: file I/O and callbacks. insn_bank_ptr is the text of bank_ptr once more.
- Exceptions.Unwinds: handlers write registers, flags and masks, change state, and nest; they do not write their link register or the registers they share with the interrupted program, because then there is nothing to restore them from.
- Exceptions.Abort: the reset, interrupt and abort vectors from a 32-bit mode; ARMul_OSException, which always declines, does not appear.
- NtransSig and Emulate, which only tell the main loop and the memory interface about a mode change.
