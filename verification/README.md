# Model of a BASIC computer's processor, scheduler, tokeniser and memory block

The repository builds a small BASIC machine around a 65816 processor. This project models five parts
of it and proves what they promise:

- **Processor** (`Machine`, `Instructions`, `Opcodes`, `CpuCore`): the registers, flags, 1 MB of memory
  and the opcode switch, once as a function from state to state and once as a class whose methods assign
  registers and memory as the macros do; the class does, instruction by instruction, what the function
  says. What the function means is said opcode by opcode: where each mode looks (`Addressing`), binary
  arithmetic (`Widths`, `Binary`), bits, shifts and steps (`Operations`), registers, memory and stack
  (`Registers`), what a branch finds out (`Branches`), jumps and calls (`Flow`), the status byte (`Status`) and
  the order of the opcodes (`Matrix`). On it rest the invariant of all runs (`Modes`), the stack (`Stack`),
  call and interrupt frames (`Frames`), packed-decimal arithmetic (`Decimal`), stores and loads (`Access`) and
  block moves (`BlockMove`).
- **Alarm scheduler** (`Alarm`), the loop that drains it (`Drain`), the serial chip (`Acia`) and the two
  together (`Serial`).
- **Tokeniser** (`Chars`, `Tokens`, `TokenTable`, `Lexer`, `Tokeniser`), the listing of tokenised lines
  (`Listing`) and the round trip between text and words (`RoundTrip`), also from block to block (`Reload`).
- **Memory block** of a BASIC program and its variables (`Block`, `Program`, `Records`, `Variables`,
  `Imports`, `VariableListing`, `VariableRuns`), and what code added after a variable does (`CodeAfter`).
- **Algorithm prototypes** of the interpreter: expressions (`Expression`), division (`Divide`) and
  number printing (`Itos`).

Check everything with `dafny verify dfyconfig.toml`.

## Where the code does not do what it seems to promise

Each of these is stated with the exact condition under which the code does meet the promise:

- 16-bit decimal SBC reads the 8-bit accumulator (`Decimal.WideSubtraction`), and the overflow flag of the
  16-bit decimal ADC does too (`Decimal.WideOverflow`).
- The reset call sets emulation without narrowing X, Y and SP (`Modes.ResetSane`), and
  three instructions after power-on that matters (`Modes.ResetUnsafe`).
- In emulation, JSL pushes without wrapping in page 1 and rewraps SP only afterwards, so RTL finds its
  frame only from SP 0x103 up (`Frames.LongCallExactly`); JSR (abs,X) has the same fault exactly at SP 0x100
  (`Frames.IndexedCallExactly`), which is where SP stands at power-on, and PHD with PLD below SP 0x102
  (`Frames.DirectPageExactly`).
- The last execution of MVN or MVP fetches its operands wrapped at the end of the bank, the others do not
  wrap; the bank is or-ed into the address, so only in even banks does that differ (`BlockMove.BanksExactly`).
- The zero and sign flags of the two processors after a decimal ADC (`Decimal.ZeroAgrees`, `Decimal.SignAgrees`).
- The serial chip takes a byte whether or not TDRE is set, and then one is lost (`Acia.Acia.Drive`). A
  programmed reset, or dropping DTR, in mid-transmission leaves TDRE clear with no alarm to set it
  (`Acia.Acia.ProgrammedReset`, `Acia.Acia.WriteCommand`, `Acia.WaitsForever`).
- A time warp moves the sentinel of an empty context (`Alarm.AlarmContext.TimeWarp`).
- Number printing pops an empty stack for 0 and 1 (`Itos.IntegerToString`).
- Text does not survive the round trip when a name without marks meets a name or constant, or a constant
  a constant (`RoundTrip.ReadsBackExactly`).
- A name that is a keyword is filed under the keyword (`Variables.NamesExactly`), and a string of more than
  255 bytes does not come back (`Records.TextBackExactly`). Imports are claimed for all names and strings; a
  listing only for names that are not keywords, as the word of one does not tell the type of the variable.
  Random names are tried without the mark of a string, so a drawn string can be such a keyword
  (`Variables.GeneratedNames`).
- The guard against code after variables is set on the wrong object and never triggers
  (`CodeAfter.CodeAfterVariables`, `CodeAfter.CodeDestroysVariable`); elsewhere the chains are only claimed
  while no line is added after an import.

## Modelling choices

- Registers are integers with their wrap-around written out; where the code combines bytes with OR and no
  bits can meet, the model adds. Memory is addressed modulo 1 MB. Reads that only matter to the bus
  (dummy reads) change nothing in RAM and are left out. COP, WAI and STP change nothing, as in the
  emulator's stubs. Runs start at power-on; the reset call is modelled but is not a step of a run.
  The block-move results are about moves that do not overwrite the move instruction itself.
- The addressing macros share their last part, the one- or two-byte access, in one pair of methods, and
  opcodes that share a macro share a method.
- Clocks are 32 bits; an alarm is never set to the sentinel. Callbacks of the draining loop are any
  sequence of reactions that unset the alarm or set it later than the clock.
- The serial chip sees the scheduler as its two timers, which `Serial` puts into an alarm context. Character
  times are positive integers; the bound on them only keeps clocks below the sentinel. Whether the serial
  driver opens, and what it receives, are parameters. `Drive` runs the chip with the line ready, through any
  writes, reads and alarms.
- Text is one line of ASCII; the four lexical patterns are written out instead of regular expressions.
  The token table is lower case, as its construction leaves it, and its names are identifiers with
  optional marks or made of symbols (the repository's own table is of this kind). Its source arrives as
  words, after comments are stripped.
- A BASIC program and its variables use addresses below 0xFFFF, as 16-bit pointers need. Names begin with a
  letter; names and values are given, not random. The listing returns records instead of formatted lines.
  Python's failed assertions and index errors are results of the methods; what a failed call leaves behind in
  memory is not described.
- The evaluator's memory is a function and its operators, apart from `!`, are abstract.

## Model

| member | source | states |
|---|---|---|
| Divide.Divide | documents/divide.py:6-29 | the shift-and-subtract loop, for any width, gives the exact quotient and remainder of every dividend that fits and every divisor from 1 |
| Divide.RemainderBounded | documents/divide.py:13-22 | before every step the remainder is below two to the number of bits consumed, so the shift never loses a bit to the mask |
| Itos.BuildSubtractors | documents/itos.py:9-13 | the stack holds the powers of the base up to the last digit column of n; it is empty exactly for n below 2 |
| Itos.CountColumn | documents/itos.py:19-23 | repeated subtraction counts the quotient into the column and leaves the remainder |
| Itos.SpreadColumns | documents/itos.py:14-25 | after any number of columns the digits so far and the rest still make up n |
| Itos.IntegerToString | documents/itos.py:6-27 | the digit count, digits and terminator for every base and n; digits are below the base except a leading one equal to it when n is a power of the base; the base is refused outside 2 to 16, the stack runs dry exactly for n below 2, and the buffer is too short exactly for n above the base to the 30 |
| Itos.DigitsUnique | documents/itos.py:14-27 | only one digit column count fits a number |
| Itos.ManyColumns | documents/itos.py:9-13 | a number has more digit columns than a limit exactly when it is above that power of the base |
| Expression.SplitUnique | documents/expression.py:87-113 | the rightmost operator of lowest precedence, at which the meaning splits, is unique |
| Expression.EachReferenceReadOnce | documents/expression.py:68-75 | in the meaning of an expression every ! reference is looked up exactly once, at its use |
| Expression.ClimbDelivers | documents/expression.py:87-113 | climbing from any level returns the meaning of the longest stretch of operators at that level, by the split rule |
| Expression.EverythingUsed | documents/expression.py:79-113 | climbing at level 1 succeeds exactly on well-formed sources, uses every token and returns the meaning by splits |
| Expression.Evaluator.GetAtom | documents/expression.py:36-38 | one number moves from the source to a new frame |
| Expression.Evaluator.ToValue | documents/expression.py:74-75 | a reference is replaced by the cell it names and the access is logged |
| Expression.Evaluator.Calculate | documents/expression.py:42-69 | both operands become values, left first; ! gives a reference, everything else a value |
| Expression.Evaluator.EvaluateLevel | documents/expression.py:87-113 | the explicit stack grows by exactly one frame, holding what climbing gives, and the source is consumed to the same place |
| Expression.Evaluator.EvaluateCode | documents/expression.py:79-83 | the answer is the meaning of the whole source with its final reference looked up; it fails exactly on sources that are not well formed |
| Expression.Evaluate | documents/expression.py:13-30 | the program refuses exactly what is not numbers with its eight operators between them; in a o1 b o2 c the right operator is applied first exactly when it is in a tighter class, from the loosest ^ | &, + -, * /, ! |
| Expression.ThreeNumbers | documents/expression.py:87-113 | of two operators the right one is done first exactly when it binds tighter, whatever the table |
| Modes.PowerOnRunSane | emulator/65816core.c:2081-2119 | every run from power-on keeps X and Y below 256 when 8-bit, SP in page 1 in emulation, and no N or Z in the stored status |
| Modes.RunSane | emulator/65816core.c:2546-2560 | every instruction keeps those facts, so every run from a state that has them does |
| Modes.ExchangeSane | emulator/65816core.c:2462-2482 | switching between emulation and native mode narrows what the new mode needs narrow |
| Modes.ChangeStatusSane | emulator/65816core.c:2081-2119 | REP and SEP keep the index registers within their width |
| Modes.IndexCompareIsUnsigned | emulator/65816core.c:1547-1563 | the carry of CPX and CPY is true unsigned comparison at either width |
| Modes.TxsKeepsX | emulator/65816core.c:2399-2408 | TXS in emulation moves the whole of X, which has nothing above its low byte |
| Modes.ResetSane | emulator/65816.c:103-106 | the reset call keeps the invariant exactly when X and Y are already narrow and SP is already in page 1 |
| Modes.ResetUnsafe | emulator/65816.c:103-106 | three instructions after power-on (CLC, XCE, TXS) the reset call breaks the invariant |
| Stack.PushStacks | emulator/65816core.c:297-307 | a push adds a byte on top of a stack that is not full and disturbs none below |
| Stack.PullUnstacks | emulator/65816core.c:309-311 | a pull gives back the top byte and leaves the rest |
| Stack.MachineIsList | emulator/65816core.c:297-361 | every run of pushes and pulls within capacity does what a list would do, wrap-around included |
| Stack.BalancedRunRestores | emulator/65816core.c:297-361 | every balanced run returns its bytes as a list would and restores SP |
| Stack.PushAllPullAll | emulator/65816core.c:1173-1186 | up to 256 bytes in emulation and 65536 in native mode come back in reverse order |
| Stack.CapacityIsExact | emulator/65816core.c:297-311 | one byte more overwrites the first |
| BlockMove.CopyRunCopies | emulator/65816core.c:1865-1892 | the byte-by-byte copy, ascending or descending, copies every byte and changes nothing else when no source byte is overwritten before it is read |
| BlockMove.SafeSide | emulator/65816core.c:1865-1896 | without wrap-around that is exactly when the destination does not start inside the source in the direction of travel |
| BlockMove.RunMoves | emulator/65816core.c:1865-1896 | C+1 executions of MVN or MVP, running from memory with index registers of either width and wherever the instruction lies, end exactly in the state of the whole copy |
| BlockMove.FinishedFields | emulator/65816core.c:1865-1896 | that state, when all executions read the same banks: C is FFFF, X and Y moved by C+1 modulo their width, the data bank set, PC past the instruction, and memory copied byte by byte |
| BlockMove.BanksExactly | emulator/sys_processor.cpp:46-46 | they read the same banks whatever is in memory exactly when the instruction does not run over the end of its program bank, or that bank is odd: in an even one the last execution fetches its operands wrapped and the others from the next bank |
| BlockMove.BanksDisagree | emulator/65816core.c:1865-1896 | over the end of an even bank there is a memory in which they differ |
| BlockMove.BlockMoveIsMemmove | emulator/65816core.c:1865-1896 | with the overlap on the safe side, and index registers that reach every byte once, the run is a memmove and touches nothing else |
| Frames.CallReturns | emulator/65816core.c:1768-1780 | JSR then RTS, around anything that keeps the frame and returns SP to it, goes to the next instruction and restores SP, in either mode |
| Frames.IndexedCallStacks | emulator/65816core.c:1782-1799 | JSR (abs,X) leaves the same frame, except with SP at 0x100 in emulation |
| Frames.IndexedCallExactly | emulator/65816core.c:1782-1799 | so JSR (abs,X) and RTS pair up around every state that keeps the frame and returns SP exactly unless SP is 0x100 in emulation |
| Frames.IndexedCallMissed | emulator/65816core.c:1782-1799 | with SP at 0x100 in emulation it puts the low byte of the return address outside the stack page, where RTS does not look |
| Frames.InterruptReturns | emulator/65816core.c:1471-1499 | native BRK then RTI restores SP, bank and all eight flags and goes to the opcode address plus 2 |
| Frames.EmulatedInterruptReturns | emulator/65816core.c:2157-2181 | BRK then RTI in emulation does the same except for the bank, which stays that of the handler, and the two status bits that are always pushed as set |
| Frames.StatusSavedAndRestored | emulator/65816core.c:2008-2064 | PHP then PLP restores the flags through the split status representation |
| Frames.LongCallReturns | emulator/65816core.c:1801-1819 | JSL then RTL restores PC, bank and SP in native mode, and in emulation from SP 0x103 |
| Frames.LongCallLost | emulator/65816core.c:2183-2200 | below that there is a state that keeps the frame bytes and still does not return |
| Frames.LongCallExactly | emulator/65816core.c:1801-1819 | so a long call returns from every state that keeps its frame exactly in native mode or with SP at least 0x103 |
| Frames.WideExactly | emulator/65816core.c:1996-2052 | a word pushed by PHD, PEA, PEI or PER comes back by PLD, with SP, around every state that keeps its two cells, exactly in native mode or from SP 0x102 |
| Frames.DirectPageExactly | emulator/65816core.c:1996-2052 | so PHD and PLD restore the direct page register exactly then |
| Decimal.AddsDigits | emulator/65816core.c:1302-1327 | 8-bit decimal ADC of packed digits gives the decimal sum and carry |
| Decimal.SubtractsDigits | emulator/65816core.c:2215-2236 | 8-bit decimal SBC gives the decimal difference and no-borrow |
| Decimal.ChainAdds | emulator/65816core.c:1302-1363 | n chained decimal ADCs add numbers of 2n digits |
| Decimal.ChainSubtracts | emulator/65816core.c:2215-2256 | n chained decimal SBCs subtract modulo 100 to the n, the carry telling whether there was no borrow |
| Decimal.SubtractionUndoesAddition | emulator/65816core.c:2215-2236 | the subtraction chain undoes the addition chain, carry included |
| Decimal.WordIsTwoBytes | emulator/65816core.c:1328-1362 | 16-bit decimal ADC has the digits and carry of two chained 8-bit ones, for all words |
| Decimal.WideSubtraction | emulator/65816core.c:2237-2255 | 16-bit decimal SBC agrees with two chained 8-bit ones exactly when the high byte of the accumulator is zero, because it reads the 8-bit accumulator |
| Decimal.WideSubtractionFails | emulator/65816core.c:2237-2255 | 0100 - 0001 gives 9999 |
| Decimal.WideOverflow | emulator/65816core.c:1328-1362 | for packed digits, the overflow flag of the 16-bit decimal ADC is that of the 16-bit operands exactly when C is below 8000, or the operand is and the two with the carry reach 16000 |
| Decimal.WideOverflowWords | emulator/65816core.c:1328-1362 | for any words, exactly when C is below 8000 or the top bit of the operand is bit 3 of the top digit sum |
| Decimal.WideOverflowFails | emulator/65816core.c:1328-1362 | 8000 + 0 sets the flag and overflows nothing |
| Decimal.SameSum | core/vice-3.3/src/6510core.c:598-631 | the 6510 ADC has the same digits, carry and overflow, decimal or not |
| Decimal.SameChain | core/vice-3.3/src/6510core.c:598-631 | and so has every chain of them |
| Decimal.ZeroAgrees | core/vice-3.3/src/6510core.c:598-631 | for packed digits the zero flags agree exactly unless the sum is 100 or the bytes add up to 100 hexadecimal |
| Decimal.SignAgrees | core/vice-3.3/src/6510core.c:598-631 | and the sign flags exactly for sums below 100 and from 160 to 179 |
| Decimal.BinaryFlagsAgree | core/vice-3.3/src/6510core.c:623-628 | outside decimal mode both agree on all bytes |
| Decimal.ZeroDiffers | core/vice-3.3/src/6510core.c:598-631 | 99 + 1 is zero for the 65816 and not for the 6510 |
| Decimal.DecimalInstructions | emulator/65816core.c:1302-1363 | the ADC and SBC instructions themselves add and subtract packed digits in decimal mode |
| Addressing.OnlyUsed | emulator/65816core.c:389-1165 | a register that a mode does not use has no part in its address |
| Addressing.Absolutes | emulator/65816core.c:816-985 | abs and abs long address what the instruction holds, and X or Y carries into the bank, modulo 2^24 |
| Addressing.DirectModes | emulator/65816core.c:389-507 | dp, dp,X and dp,Y stay within the page in emulation mode when it is aligned and else wrap in bank 0; sr,S wraps in bank 0 |
| Addressing.ThroughDirectPage | emulator/65816core.c:537-704 | if the two pointer cells hold the bytes of p, (dp) and (dp,X) lead to p in the data bank and (dp),Y to p + Y, over its end into the next |
| Addressing.ThroughLongPointer | emulator/65816core.c:709-778 | if the three pointer cells hold the bytes of p, [dp] leads to p and [dp],Y to p + Y |
| Addressing.ThroughStack | emulator/65816core.c:1133-1165 | if the two cells relative to the stack hold the bytes of p, (sr,S),Y leads to p + Y in the data bank |
| Addressing.IndexMoves | emulator/65816core.c:631-985 | an indexed mode is the mode without the index, that many bytes on |
| Access.StoreThenLoad | emulator/65816core.c:783-985 | a store then a load of the same width at one effective address gives the value back, with the wrap each mode has |
| Access.SameAddress | emulator/65816core.c:389-703 | the effective address depends on the operand, the registers and the pointer cells alone |
| Access.AddressKept | emulator/65816core.c:537-806 | a store away from the pointer cells leaves the address what it was |
| Access.LoadsWhatWasStored | emulator/65816core.c:389-985 | store then load with the same operand returns the stored value in every addressing mode |
| Access.ReplacesOperand | emulator/65816core.c:1202-1265 | a read-modify-write replaces exactly the byte or word it read |
| CpuCore.Cpu.LoadLong | emulator/sys_processor.cpp:44-44 | reads one byte of the masked address space |
| CpuCore.Cpu.StoreLong | emulator/sys_processor.cpp:45-45 | writes one byte and no other |
| CpuCore.Cpu.FetchParam | emulator/sys_processor.cpp:46-46 | reads an instruction byte in the program bank |
| CpuCore.Cpu.Push | emulator/65816core.c:297-307 | the byte goes where the stack model says, wrapping in page 1 in emulation |
| CpuCore.Cpu.Pull | emulator/65816core.c:309-311 | the top byte comes back and SP moves up with the same wrap |
| CpuCore.Cpu.DirectPageIndexed | emulator/65816core.c:456-500 | the indexed direct-page access reads or writes at the one effective address, whatever the page and mode |
| CpuCore.Cpu.IndirectX | emulator/65816core.c:582-626 | likewise for (dp,X), with the pointer wrap of emulation |
| CpuCore.Cpu.IndirectY | emulator/65816core.c:631-704 | likewise for (dp),Y, page crossing included |
| CpuCore.Cpu.IndirectLongY | emulator/65816core.c:745-778 | likewise for [dp],Y |
| CpuCore.Cpu.AbsoluteIndexed | emulator/65816core.c:899-948 | likewise for abs,X and abs,Y, page crossing included |
| CpuCore.Cpu.StackRelativeY | emulator/65816core.c:1133-1165 | likewise for (sr,S),Y |
| CpuCore.DecimalSumByte | emulator/65816core.c:1310-1321 | the 8-bit decimal addition steps compute the sum that adds digits |
| CpuCore.DecimalSumWord | emulator/65816core.c:1330-1353 | the 16-bit steps compute the sum whose columns carry as decimal digits |
| CpuCore.DecimalDifferenceByte | emulator/65816core.c:2225-2231 | the 8-bit decimal subtraction steps compute the difference of digits |
| CpuCore.DecimalDifferenceWord | emulator/65816core.c:2241-2250 | the 16-bit steps, with the accumulator mix-up they have |
| CpuCore.Cpu.Add | emulator/65816core.c:1302-1363 | ADC sets accumulator and all four flags to those of the sum |
| CpuCore.Cpu.Subtract | emulator/65816core.c:2215-2256 | SBC sets accumulator and all four flags to those of the difference |
| CpuCore.Cpu.LoadRrw | emulator/65816core.c:508-535 | the read half of a read-modify-write reads the operand its write half replaces |
| CpuCore.Cpu.StoreRrw | emulator/65816core.c:1202-1220 | the write half replaces it |
| CpuCore.Cpu.CallIndexed | emulator/65816core.c:1782-1799 | JSR (abs,X) pushes without the page wrap and jumps through the table |
| CpuCore.Cpu.CallLong | emulator/65816core.c:1801-1819 | JSL pushes bank and return address unwrapped, then rewraps SP |
| CpuCore.Cpu.ReturnFromLong | emulator/65816core.c:2183-2200 | RTL pulls them unwrapped |
| CpuCore.Cpu.BreakInstruction | emulator/65816core.c:1471-1499 | BRK pushes its frame for the mode and goes through the vector |
| CpuCore.Cpu.ReturnInterrupt | emulator/65816core.c:2157-2181 | RTI restores the status and the address, and the bank in native mode |
| CpuCore.Cpu.MoveByte | emulator/65816core.c:1865-1892 | one step of MVN or MVP: a byte moved, the counts stepped, PC back unless finished |
| CpuCore.Cpu.RepSep | emulator/65816core.c:2081-2119 | REP and SEP change the chosen status bits, the split N and Z, and narrow the index registers |
| CpuCore.Cpu.ExchangeCarryEmulation | emulator/65816core.c:2462-2482 | XCE swaps carry and emulation with all that goes with it |
| CpuCore.Cpu.ExecuteOneInstruction | emulator/65816core.c:2546-3571 | the whole opcode switch, run on the registers and memory in place, takes the state to that of the instruction set model |
| CpuCore.Cpu.ExecuteInstructions | emulator/65816.c:85-88 | any number of instructions executed in place is that many steps of the model, and keeps the registers within their modes |
| CpuCore.Cpu.Reset | emulator/65816.c:103-106 | clears PC and the banks and sets emulation, and nothing else |
| CpuCore.RunFromPowerOn | emulator/65816.c:85-88 | a processor made for any memory and run for any number of instructions is where the model is from power-on, with X and Y below 256 whenever they are 8 bits wide and SP in page 1 in emulation |
| Alarm.AlarmContext.UpdateNextPending | core/vice-3.3/src/alarm.h:112-131 | the scan leaves the cached clock the least pending one and the cached index a slot that has it |
| Alarm.AlarmContext.Set | core/vice-3.3/src/alarm.h:148-187 | the map from alarms to clocks gains or changes exactly this alarm, unless it is new and 256 are pending; slots, back-pointers and cache stay in step |
| Alarm.AlarmContext.UnsetPending | core/vice-3.3/src/alarm.c:167-201 | swap-removal takes out this alarm and keeps the clock of every other |
| Alarm.AlarmContext.Unset | core/vice-3.3/src/alarm.c:167-207 | the map loses exactly this alarm; unsetting one that is not pending changes nothing |
| Alarm.AlarmContext.TimeWarp | core/vice-3.3/src/alarm.c:79-101 | every clock moves by the amount modulo 2^32, and the structure stays in order exactly when nothing is left inverted by a wrap and, with nothing pending, the sentinel does not move |
| Alarm.CacheAfterWarp | core/vice-3.3/src/alarm.c:79-101 | the cached minimum survives a warp exactly when no clock wraps past it |
| Alarm.WarpOrder | core/vice-3.3/src/alarm.c:86-95 | two clocks keep their order through a warp exactly when both wrap or neither does |
| Alarm.AlarmContext.NewAlarm | core/vice-3.3/src/alarm.c:105-137 | a new alarm heads the doubly linked list and is not pending |
| Alarm.AlarmContext.Destroy | core/vice-3.3/src/alarm.c:139-165 | destroying unsets the alarm and unlinks it, keeping the rest of list and map |
| Alarm.AlarmContext.DestroyAll | core/vice-3.3/src/alarm.c:59-77 | destroying the context leaves no alarm |
| Alarm.AlarmContext.NextIsLeast | core/vice-3.3/src/alarm.h:107-110 | the cached clock is the minimum of the map, the sentinel when it is empty, and the cached slot attains it |
| Alarm.AlarmContext.Replay | core/vice-3.3/src/alarm.h:107-187 | every run of set, cancel, warp and destroy does to the map what the plain map operations do |
| Drain.Dispatch | core/vice-3.3/src/alarm.h:133-146 | the alarm that fires is one that attains the least clock, with the offset from it |
| Drain.ProcessAlarms | core/vice-3.3/src/6510core.c:114-119 | with callbacks that move or remove only their own alarm, forward, the loop ends, has fired each due alarm exactly once in clock order with its offset, and leaves nothing due |
| Drain.AllFired | core/vice-3.3/src/6510core.c:114-119 | a run of firings that leaves nothing due has fired exactly the alarms that were due |
| Acia.Acia.SetTicks | core/vice-3.3/src/aciacore.c:373-433 | both character times are set and a running receive alarm is moved |
| Acia.Acia.SetHandshakeLines | core/vice-3.3/src/aciacore.c:584-622 | the lines follow the command register, and turning the transmitter on starts the receive alarm at the new rate |
| Acia.Acia.NothingLostExactly | core/vice-3.3/src/aciacore.c:912-928 | a write to the data register loses no byte exactly when TDRE is set |
| Acia.Acia.WriteData | core/vice-3.3/src/aciacore.c:912-928 | with DTR on the byte becomes the pending one, TDRE clears and the transmit alarm runs; with it off nothing is sent |
| Acia.Acia.ProgrammedReset | core/vice-3.3/src/aciacore.c:929-947 | closes the device, stops both alarms, drops the lines and keeps the parity bits; TDRE stays as it was, so the protocol survives exactly when TDRE was set and the last byte had left |
| Acia.Acia.WriteCommand | core/vice-3.3/src/aciacore.c:952-967 | DTR opens and closes the device and stops a transmission; a command keeps the protocol exactly unless it drops DTR on an open line in mid-transmission |
| Acia.Acia.Store | core/vice-3.3/src/aciacore.c:893-974 | only the data register adds to the traffic, only the status register drops what is pending, and each other register takes the byte |
| Acia.Acia.Read | core/vice-3.3/src/aciacore.c:1001-1043 | each register reads as what it holds; the status shows the interrupt request at the top and takes it back, the data clears the full bit, and no read changes the traffic |
| Acia.Acia.IntTx | core/vice-3.3/src/aciacore.c:1110-1146 | a written byte is sent once, the interrupt is raised exactly if it is enabled for sending, the state counts down, and sends stay at least a character time apart |
| Acia.Acia.IntRx | core/vice-3.3/src/aciacore.c:1172-1215 | a received byte sets full, or overrun when the last was not read, raises the interrupt exactly if it is enabled, and the alarm moves on |
| Acia.Acia.Drive | core/vice-3.3/src/aciacore.c:893-1215 | every run from a ready line takes the transmitter where the step function takes it and keeps sends apart; the bytes sent and the pending one are those on their way at the start and then all bytes written, in order, exactly when every write found TDRE set |
| Acia.Acia.DriveAndLook | core/vice-3.3/src/aciacore.c:1022-1027 | the status read after any such run shows the interrupt request exactly when, since it was last read, a byte went out or came in with its interrupt enabled at that moment |
| Acia.RequestExactly | core/vice-3.3/src/aciacore.c:1110-1215 | the same for the step function of receiver and request |
| Acia.TrafficExactly | core/vice-3.3/src/aciacore.c:893-1146 | a run with TDRE set at every write adds all bytes written to the traffic; any other run loses a byte |
| Acia.WaitsForever | core/vice-3.3/src/aciacore.c:912-947 | with TDRE clear and no alarm to set it, as after a reset in mid-transmission, a program that waits for TDRE never sends again |
| Serial.Serve | core/vice-3.3/src/6510core.c:114-119 | with the two alarms of the chip in a context shared with other devices, the draining loop fires everything due in order, and the transmitter takes exactly the step of its alarm when that was due |
| Serial.Rewire | core/vice-3.3/src/aciacore.c:912-967 | after an access the alarms of the chip follow its timers and those of other devices stay where they are |
| Serial.Operate | core/vice-3.3/src/aciacore.c:893-1215 | any program that works the chip with alarms fired by the scheduler alone: state and distance of sends as in a run of the chip, and no byte lost exactly when every write finds TDRE set after the drain before it |
| Matrix.ShortRow | emulator/65816core.c:2544-3567 | ORA, AND, EOR, ADC, LDA, CMP and SBC have eight operands at the same distances from their first opcode |
| Matrix.LongRow | emulator/65816core.c:2544-3567 | and seven more |
| Matrix.StoreRow | emulator/65816core.c:2544-3567 | so has STA, except for the immediate one |
| Matrix.ModifyRow | emulator/65816core.c:2544-3567 | shifts and steps have four operands in memory at the same distances, and the accumulator |
| Matrix.IndexRow | emulator/65816core.c:2544-3567 | loads, comparisons and stores of X and Y lie alike, each indexed by the other |
| Matrix.TestRow | emulator/65816core.c:2544-3567 | STZ and BIT with and without an index |
| Matrix.SetRow | emulator/65816core.c:2544-3567 | TSB and TRB |
| Binary.Adds | emulator/65816core.c:1302-1363 | outside decimal mode an executed ADC leaves operand, accumulator and carry summed modulo the width; C says it did not fit, V that the signed sum did not, N and Z show the result, and nothing else changes |
| Binary.Subtracts | emulator/65816core.c:2215-2256 | SBC likewise, C meaning before and after that nothing is borrowed |
| Binary.ChainAdds | emulator/65816core.c:1302-1363 | n executed ADCs, whatever happens between them to anything but carry and width, add numbers of n bytes or words |
| Binary.ChainSubtracts | emulator/65816core.c:2215-2256 | n executed SBCs subtract them modulo the size of such numbers |
| Binary.BorrowExactly | emulator/65816core.c:2215-2256 | and the last carry is set exactly when nothing is borrowed |
| Binary.SubtractionUndoesAddition | emulator/65816core.c:2215-2256 | a chain of SBCs undoes a chain of ADCs, carry included |
| Branches.OnFlags | emulator/65816core.c:1433-1457 | each branch opcode is taken exactly on its value of its flag, goes as far as its signed operand says, and changes nothing else |
| Branches.AfterCompare | emulator/65816core.c:1529-1595 | after CMP, CPX or CPY, BEQ is taken exactly when register and operand are equal, BCS when the register is at least the operand, BMI by the top bit of the difference, and BNE, BCC and BPL exactly otherwise |
| Branches.AfterLoad | emulator/65816core.c:1821-1838 | after LDA, LDX or LDY, BEQ is taken exactly when 0 was loaded and BMI by its top bit |
| Branches.AfterAdd | emulator/65816core.c:1302-1363 | after ADC, BVS is taken exactly when the signed sum does not fit and BCS when the unsigned one does not |
| Branches.AfterSubtract | emulator/65816core.c:2215-2256 | after SBC, BVS is taken exactly when the signed difference does not fit and BCC when something was borrowed |
| Branches.CountsDown | emulator/65816core.c:1618-1633 | DEX or DEY with BNE back to it goes round exactly as often as the register says, 0 counting as full, and changes nothing but the register, N and Z |
| Operations.BitByBitResult | emulator/65816core.c:1365-1380 | ORA, AND and EOR combine accumulator and operand bit by bit at either width |
| Operations.LoadsAccumulator | emulator/65816core.c:1821-1821 | LDA loads its operand and shows it, an 8-bit load leaving the other half |
| Operations.TestsBits | emulator/65816core.c:1416-1430 | BIT: Z says that accumulator and operand have no bit in common, N and V are the two top bits of the operand |
| Operations.TestsOnly | emulator/65816core.c:1403-1414 | immediate BIT sets Z alone |
| Operations.Shifts | emulator/65816core.c:1382-1401 | of accumulator or memory: ASL and ROL double, LSR and ROR halve, the bit lost is in the carry and a rotation takes the old carry in |
| Operations.StepsByOne | emulator/65816core.c:1599-1616 | INC and DEC step modulo the width and leave the carry |
| Operations.SetsBits | emulator/65816core.c:2352-2371 | TSB and TRB set or clear in memory the bits of the accumulator, and Z says whether none was set before |
| Operations.RotationsUndo | emulator/65816core.c:1842-1863 | ROR after ROL, and ROL after ROR, gives back operand and carry |
| Operations.StepsUndo | emulator/65816core.c:1599-1616 | DEC after INC, and INC after DEC, gives back the operand |
| Registers.StepsIndex | emulator/65816core.c:1618-1641 | INX, INY, DEX and DEY step modulo the width of the index registers |
| Registers.LoadsIndex | emulator/65816core.c:1823-1838 | LDX and LDY load their operand and show it |
| Registers.ToIndex | emulator/65816core.c:2309-2323 | TAX, TAY and TSX take as much as the index registers hold |
| Registers.ToAccumulator | emulator/65816core.c:2384-2397 | TXA and TYA take as much as the accumulator holds, its other half staying |
| Registers.BetweenIndexes | emulator/65816core.c:2399-2431 | TXY, TYX and TXS |
| Registers.DirectTransfers | emulator/65816core.c:2325-2350 | TCD and TDC take all of the accumulator whatever its width |
| Registers.PointerTransfers | emulator/65816core.c:2333-2380 | TSC and TCS likewise, staying in page 1 in emulation mode |
| Registers.Swaps | emulator/65816core.c:2450-2460 | XBA |
| Registers.IndexReturns | emulator/65816core.c:2309-2397 | TAX then TXA, and TAY then TYA, give the accumulator back exactly when it is 8 bits wide, the index is not, or it is below 256 |
| Registers.PointerReturns | emulator/65816core.c:2382-2408 | TSX then TXS restores the stack pointer exactly in emulation mode, with wide X, or below 256 |
| Registers.IndexesReturn | emulator/65816core.c:2410-2431 | TXY then TYX |
| Registers.AccumulatorReturns | emulator/65816core.c:2333-2380 | TCS then TSC gives the accumulator back exactly in native mode or with high byte 1 |
| Registers.AlwaysReturns | emulator/65816core.c:2325-2460 | TCD then TDC, and XBA twice, always do |
| Registers.OperandData | emulator/65816core.c:389-1165 | what is read is the byte or word at the address of the mode, a direct-page or stack-relative word staying in bank 0, or the bytes after the opcode |
| Registers.Stores | emulator/65816core.c:2282-2306 | STA, STX, STY and STZ put as much of their register as its width says at that address and change nothing else |
| Registers.Pushes | emulator/65816core.c:1985-2019 | PHA, PHX, PHY, PHB and PHK put their register on the stack |
| Registers.PullsAccumulator | emulator/65816core.c:2021-2030 | PLA takes it off again and shows it |
| Registers.PullsIndex | emulator/65816core.c:2066-2079 | PLX and PLY |
| Registers.PullsBank | emulator/65816core.c:2032-2036 | PLB |
| Registers.StepsOver | emulator/65816core.c:1285-1300 | an instruction that reads or writes ends after its operand, as long as its mode and width say |
| Flow.JumpsTo | emulator/65816core.c:1696-1764 | JMP absolute and long go to the operand, BRL as far on from the next instruction |
| Flow.JumpsThrough | emulator/65816core.c:1707-1752 | the indirect jumps go where the pointer leads, in bank 0 or, indexed, in the program bank |
| Flow.CallsTo | emulator/65816core.c:1768-1819 | JSR and JSL go to the operand, unless JSL pushes its bank over the last byte of it |
| Flow.CallsThrough | emulator/65816core.c:1782-1799 | JSR (abs,X) goes where the pointer leads when the return address has been pushed |
| Flow.Returns | emulator/65816core.c:2157-2200 | RTS, RTL and RTI are the returns the frames speak of |
| Flow.Breaks | emulator/65816core.c:1471-1499 | BRK goes through the vector at FFFE in emulation and FFE6 in native mode, to bank 0, with interrupts off and decimal mode left |
| Flow.PushesWords | emulator/65816core.c:1938-2004 | PHD, PEA, PEI and PER push their word, high byte first, without the wrap of page 1 |
| Flow.PullsDirectPage | emulator/65816core.c:2038-2052 | PLD takes the next two bytes up and shows them |
| Status.ChangesFlag | emulator/65816core.c:1501-1527 | CLC, CLD, CLI, CLV, SEC, SED and SEI change their flag alone |
| Status.ChangesStatus | emulator/65816core.c:2081-2119 | REP clears and SEP sets in the status byte the bits of the operand, M and X in native mode only, and index registers that become narrow lose their high bytes |
| Status.Exchanges | emulator/65816core.c:2462-2482 | XCE swaps carry and emulation, with the narrowing of each direction |
| Status.PushesStatus | emulator/65816core.c:2008-2016 | PHP pushes N, V, M, X, D, I, Z and C from the top bit down |
| Status.PullsStatus | emulator/65816core.c:2054-2064 | PLP sets them from such a byte |
| Status.Idles | emulator/65816core.c:1930-1934 | NOP and WDM only move on; the three stubs do not even that |
| Tokens.ItemParses | scripts/dump_export.py:26-52 | every kind of item decodes from its words to itself and the next begins right after them |
| Tokens.ItemsParse | scripts/tokeniser.py:46-86 | every list of items decodes to itself and the walk stops exactly at the final 0, whatever the words inside strings look like |
| Tokens.NameParses | scripts/tokeniser.py:49-61 | names of any length survive packing two characters a word with continuation and type marks |
| Tokens.KeywordWord | scripts/gentokens.py:19-26 | a keyword word lies in the keyword range, its low nine bits are its number and the four above them its group |
| Tokens.ConstantLayout | scripts/tokeniser.py:65-71 | a constant below 32768 is one word from 0x4000 up, a larger one has the rest in a word from 0x1000 up before it |
| Tokens.NameLayout | scripts/tokeniser.py:49-61 | each word of a name is 0xc000 and more: two characters in base 45, and whether more follow, "(" and "$" |
| Tokens.TextLayout | scripts/tokeniser.py:76-86 | a string begins with the size of the whole in bytes, then come its own length and its bytes, low byte first |
| Lexer.CodeOrder | scripts/tokeniser.py:92-98 | letters are 1 to 26 in order in either case, digits 27 to 36 |
| Lexer.KeywordForm | scripts/dump_export.py:36-38 | a keyword is printed in capitals between spaces |
| Lexer.ConstantForm | scripts/dump_export.py:39-42 | a constant in decimal without leading zeros |
| Lexer.NameForm | scripts/dump_export.py:43-60 | a name in small letters with its marks after it |
| Lexer.TextForm | scripts/dump_export.py:29-33 | a string in quotes |
| TokenTable.HeaderGroups | scripts/gentokens.py:51-68 | a numbered header opens its group, six names open 8, 9, 12, 13, 14 and 15, and every other is refused |
| TokenTable.TokenList.Build | scripts/gentokens.py:41-74 | the table holds the keywords in order with the group each stands in, each found by name; it fails exactly on a duplicate, a bad header, a keyword before any header, a long name or a forbidden group |
| TokenTable.EntriesAreWords | scripts/gentokens.py:46-74 | names in the table are source words and no two are the same |
| TokenTable.BuiltTableReadable | scripts/gentokens.py:19-74 | a built table meets what the round trip asks of it exactly when it has fewer than 512 entries and each name is an identifier with optional marks or made of symbols |
| Tokeniser.LongestFirst | scripts/tokeniser.py:22-25 | the search order has every entry, longest names first |
| Tokeniser.FirstIsLongest | scripts/tokeniser.py:102-108 | the first match in that order is the longest name the text starts with |
| Tokeniser.Tokeniser.FindToken | scripts/tokeniser.py:102-108 | finds the exact name, or the longest one the text starts with, or nothing exactly when there is none |
| Tokeniser.Tokeniser.Convert | scripts/tokeniser.py:92-98 | letters are 1 to 26 in either case and digits 27 to 36 |
| Tokeniser.Tokeniser.AppendName | scripts/tokeniser.py:49-61 | the loop puts out exactly the packed words of the name |
| Tokeniser.Tokeniser.AppendString | scripts/tokeniser.py:76-86 | header, length, bytes and padding are the words of the string |
| Tokeniser.Tokeniser.TokeniseOne | scripts/tokeniser.py:38-90 | one item comes off the text and its words go on the buffer; nothing is appended when the text cannot be read |
| Tokeniser.Tokeniser.Tokenise | scripts/tokeniser.py:29-34 | the buffer holds the words of the items of the line, or the call fails, exactly as the items of the text say |
| RoundTrip.ApartReadsBack | scripts/tokeniser.py:29-108 | printing a list of items and reading it again gives the list when nothing in it runs together |
| RoundTrip.ReadsBackExactly | scripts/tokeniser.py:29-108 | and only then: not with a name without marks before a name or constant, nor a constant before a constant |
| RoundTrip.TextRoundTrip | scripts/tokeniser.py:29-108 | for every text that can be tokenised, its printed items read back as themselves exactly under that condition |
| Tokeniser.WordRoundTrip | scripts/dump_export.py:23-60 | stored, printed and tokenised again, the words of any text come back exactly under that condition |
| Tokeniser.WordsDetermineItems | scripts/tokeniser.py:46-86 | no two lists of items have the same words |
| Listing.LinePrints | scripts/dump_export.py:23-52 | a stored line prints as the texts of its items one after another |
| Listing.ItemPrints | scripts/dump_export.py:26-52 | every stored item prints as its text and leaves no constant shift behind |
| Listing.DumpFile.DeTokenise | scripts/dump_export.py:23-53 | the loop prints any memory word by word, wherever it leads, and fails exactly where an index would |
| Listing.DumpFile.Decode | scripts/dump_export.py:62-71 | the loop over the links gives number and text of every line |
| Reload.ReloadProgram | scripts/dump_export.py:62-79 | any program that was accepted into a block: its listing is accepted in the same room and is the same program exactly when nothing in its lines runs together |
| Reload.LoadAndReload | scripts/dump_export.py:62-79 | the same from block to block: the second takes the listing and holds the very same lines exactly then |
| Reload.ReloadExactly | scripts/dump_export.py:62-79 | a program listed to a file and read again gives the same numbered items exactly when nothing in its lines runs together |
| Reload.LineBack | scripts/basicblock.py:141-143 | a listed line splits into its number and a text that reads as its items do |
| Block.BasicBlock.constructor | scripts/basicblock.py:23-36 | a new block holds no program, cleared tables, the free-space pointers and its identifier |
| Block.BasicBlock.ClearMemory | scripts/basicblock.py:70-73 | program and pointers are reset and the tables kept |
| Block.BasicBlock.ReadLong | scripts/basicblock.py:127-131 | two words as a signed number of 32 bits |
| Block.BasicBlock.ProgramEnd | scripts/basicblock.py:77-80 | following the links ends at the zero word after the last line |
| Block.BasicBlock.ResetLowMemory | scripts/basicblock.py:77-84 | the program stays, two markers follow it, and free space starts six bytes after its end |
| Block.BasicBlock.AllocateLowMemory | scripts/basicblock.py:88-92 | free space moves up, failing exactly when fewer than 1024 bytes stay between the pointers |
| Block.BasicBlock.AllocateHighMemory | scripts/basicblock.py:96-100 | free space moves down, with the same check |
| Block.BasicBlock.AddBASICLine | scripts/basicblock.py:147-166 | the line goes on the end with a number above all others, nothing before it changes, and the low pointer is the end marker plus 6; each way to be refused, and what is kept then |
| Block.HeldAppend | scripts/basicblock.py:159-165 | words written at the end marker extend the linked program by one line |
| Block.HeldStep | scripts/basicblock.py:77-84 | the link of a line is its length in bytes and leads to the next |
| Program.WalkLists | scripts/dump_export.py:62-71 | walking the links visits exactly the lines held, in order, and prints each |
| Program.LoadLines | scripts/basicblock.py:135-144 | any run of lines added to any block is accepted exactly when all are readable, rising and fit together; they then follow the lines it had, and the links list both |
| Records.SignedExactly | scripts/basicblock.py:127-131 | a number comes back exactly when it fits 32 bits with sign |
| Records.SlotType | scripts/old_testing/variables.py:179-183 | the slot of a name that is no keyword tells its type, by the marks in its first word |
| Records.ChainKept | scripts/old_testing/variables.py:111-149 | a chain depends on the bytes of its records, names and strings alone |
| Records.ChainsLinked | scripts/old_testing/variables.py:145-148 | a new record at the front of its chain leaves the others alone, and links stay strictly decreasing |
| Variables.NameTokenises | scripts/old_testing/variables.py:153-162 | the name of a variable, with its marks, tokenises to one item: the keyword that has it, or the name |
| Variables.NamesExactly | scripts/old_testing/variables.py:153-162 | a name goes in as its packed words exactly when no keyword has it; else it goes in as one word, into the slots of strings whatever it holds |
| Variables.GeneratedNames | scripts/old_testing/variables.py:64-72 | the generator tries names without the mark of a string, so what it lets through is no keyword for numbers always, and for strings exactly when no keyword has the marked name |
| Records.TextBackExactly | scripts/old_testing/dispvariables.py:107-107 | what the listing shows of a string of any length is the string exactly when it has at most 255 bytes |
| Records.TextHeld | scripts/old_testing/variables.py:165-175 | and what it shows is what lies in memory where the string was written |
| Variables.StoreHigh | scripts/old_testing/variables.py:158-175 | words land in fresh high memory and the program is untouched |
| Variables.StoreTexts | scripts/old_testing/variables.py:165-175 | strings of any length land one below the other, none over another |
| Variables.PlaceRecord | scripts/old_testing/variables.py:121-140 | record, name and strings are placed exactly when they fit together, and everything outside the free space is as before |
| Imports.Variable.HashAddress | scripts/old_testing/variables.py:179-183 | the address of the slot a first word belongs to |
| Imports.Variable.LinkIn | scripts/old_testing/variables.py:142-148 | the record takes the link of its slot and the slot its address; all 64 chains stay whole |
| Imports.Variable.ImportFast | scripts/old_testing/variables.py:114-121 | the four bytes of the letter take the number and nothing else changes |
| Imports.Variable.ImportVariable | scripts/old_testing/variables.py:111-149 | any variable with any name heads the chain of its slot with all earlier ones unchanged, exactly when there is room; the flag against more code lands on the variable, not on the block |
| VariableListing.DecodeIdentifier | scripts/old_testing/dispvariables.py:73-94 | the packed name reads back with its marks |
| VariableListing.Describe | scripts/old_testing/dispvariables.py:55-69 | a record whose name is no keyword reads back as name, address, slot and what is shown of its own values |
| VariableListing.ListSlot | scripts/old_testing/dispvariables.py:51-70 | the walk of a slot ends and gives its records, newest first |
| VariableListing.ListFastVariables | scripts/old_testing/dispvariables.py:36-43 | the letters that are not zero, with their values |
| VariableListing.ListVariables | scripts/old_testing/dispvariables.py:28-32 | the listing gives every variable of every chain with its name, type and what is shown of its values |
| VariableRuns.ImportAll | scripts/old_testing/variables.py:111-149 | any list of variables goes in exactly when it fits as a whole; then every chain holds exactly its variables and every letter its last value, and records still lie without a gap |
| VariableRuns.ImportAndList | scripts/old_testing/dispvariables.py:28-43 | from cleared tables, importing any list of variables that fits and whose names are no keywords, and listing them, gives exactly their names, types and what is shown of their values, newest first in each slot, and of every letter its last value when it is not zero |
| CodeAfter.CodeAfterVariables | scripts/old_testing/variables.py:124-124 | the guard against code after variables is set on the variables, so a line is accepted or refused as if there were none; when it is accepted the chains are whole exactly when its words, and what follows it, happen to spell out all the records one after another |
| CodeAfter.ImportsThenCode | scripts/basicblock.py:147-166 | the same for any list of variables imported first |
| CodeAfter.RarelySurvives | scripts/basicblock.py:147-166 | which takes a line whose second word is 0 and whose third is the address of the oldest name |
| CodeAfter.CodeDestroysVariable | scripts/basicblock.py:147-166 | in a new block, a1 = 42 goes in, the line END is accepted, and the variable is lost |

## Left out

- SDL graphics, keyboard, audio and the debugger: user interface.
- File reading and writing, snapshots, resources and command-line options: plumbing around the models.
- Cycle counts, interrupts (IRQ and NMI), tracing and traps of the processor.
- The 6510 beyond its ADC and the draining loop, and its undocumented opcodes: they would mostly repeat easier members.
- The second copy of the 65816 core under `core/`: the same code.
- Baud-rate calculation in floating point, interrupt line selection, mode switching and the repeated store of read-modify-write instructions in the serial chip.
- Boot lines (`@`) of a BASIC file and the boot option.
- Rendering the token tables as assembler source and scanning the sources for routine labels.
- Random names, values and test programs, and the scripts that build and check them.
- Modes.PowerOnRunSane: says nothing about runs in which the reset call is made, because it breaks the invariant.
- Listing.DumpFile.DeTokenise: does not describe characters above 255, because memory holds bytes.
- Block.BasicBlock.AddBASICLine: does not describe memory after a line is refused for lack of room, because the original stops there.
- VariableListing.ListVariables: does not describe what is shown for a name that is a keyword, because the walk then leaves the records.
- Imports.Variable.ImportVariable: does not describe memory after an import fails for lack of room, because the original stops there.
