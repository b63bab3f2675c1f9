# ECP5 DDR3 PHY and console firmware — a Dafny model

This project models two pieces of a LiteX/Migen SoC for the Lattice ECP5 Versa board.

The first is the DDR3 PHY generator `ecp5ddrphy.py`. The model covers:

- the timing helpers that choose CAS latencies and the PHY settings, in `ddr3_timing.dfy`;
- the per-pin logic the PHY builds: the DQS serializer pattern, the packing of DFI write data and masks into 8-bit words, the `bl8_sel` nibble mux, the read-data bitslip counters, the DQSBUFM controls and the drive of DFI read data, in `phy_logic.dfy`;
- the clocked flow control that delays `rddata_en` into `rddata_valid` and `wrdata_en` into the output enables, in `phy_logic.dfy`;
- the whole PHY as a clocked object, in `ecp5_phy.dfy`.

Migen semantics are made explicit:

- A `sync` statement updates every register at once from the old values. The class `Ecp5Phy.Ecp5DdrPhy` has one `Step` per system clock cycle, which computes the new register records from the old ones.
- A `comb` statement is a function of the registers and the current inputs. These are the class's functions (`OutputEnableNow`, `DqOut`, ...) and the pure functions they call.
- An undriven signal keeps its reset value.

Shift registers are modelled as traces. `Register(xs, n)` is an n-bit shift register after the inputs `xs`, oldest first. The lemmas state each delay as "the value seen k cycles ago". The class keeps ghost traces of `rddata_en`, `wrdata_en` and `wlevel_en` since reset. Its invariant `Valid` ties every register to those traces.

The second piece is the BIOS-style console in `firmware/main.c`, modelled in `console.dfy`:

- `readstr`, the non-blocking line editor. It has a static 64-byte buffer and an insertion pointer, modelled as the class `Console.Console` with an `array<char>` and an `int`.
- `get_token`, which cuts a C string at the first space by writing a NUL in place.
- the command dispatch of `console_service`.

Characters are Dafny `char`s standing for C bytes. A NUL (`'\0'`) ends a C string. `CString(s)` is the string a C routine sees in a buffer `s`.

Behaviours of the source kept as written:

- `ecp5ddrphy.py:345` drives `phases[0].rddata[i]`, with the byte-lane index `i`, from the bitslip output of pin `j`. The model keeps this:
  - `rd0[i]` ends up holding the bit of the last pin of lane `i` (pin `8*i+7`);
  - positions `databits/8 .. databits-1` of phase 0 stay 0;
  - `DriveReadData` states both.
- `ecp5ddrphy.py:173-177` index the delay-select CSR with `i//8`, where `i` is already a byte-lane index. Every lane below 8 therefore follows bit 0 of `dly_sel`, not its own bit. `DqsBufControlsOf` keeps the `lane / 8` index. `DqsBufFollowsLaneZero` states the consequence: lanes 0..7 share lane 0's controls. `DqsBufIgnoresLaneSelect` states it for one lane: selecting only lane 1..7 resets or moves no DQS delay, yet it still moves that lane's bitslip counters, which use `dly_sel[i]` (line 335).
- `dqs_preamble` and `dqs_postamble` (lines 206-207) are never driven, so they stay 0. Outside write levelling the DQS pattern is always `0b01010101`. `DqsStrobeInPhy` states this with both inputs false.
- The `half_sys8x_taps` CSR (line 51) is stored and never read. It has no effect on the model.
- The PHY settings say `nphases = 2` (line 47), but the DFI interface is built with 4 phases (line 91). `rddata_valid` is driven into all 4 phases (lines 373-374). The data paths use only phases 0 and 1. The model's DFI input has `DfiPhaseCount = 4` phases, and `RddataValidOfPhases` returns all four.

## Model

| member | source | states |
|---|---|---|
| Ddr3Timing.FirstGrade | ecp5ddrphy.py:24-27 | the scan of the frequency table succeeds iff some entry has `tck >= 2/f`; on success it returns the (cl, cwl) of the first such entry; otherwise it fails with no timing solution |
| Ddr3Timing.GetClCw | ecp5ddrphy.py:18-27 | a memory type other than "DDR3" fails; for DDR3, (6, 5) is returned exactly when `tck >= 2/800e6` (exact rational comparison); otherwise it fails |
| Ddr3Timing.SysLatency | ecp5ddrphy.py:29-30 | the result is the ceiling of cas_latency / nphases: `l*n >= cl` and `(l-1)*n < cl` |
| Ddr3Timing.SysLatencyUnique | ecp5ddrphy.py:29-30 | any l with those two bounds equals `SysLatency`, so the bounds characterise the ceiling |
| Ddr3Timing.SysPhases | ecp5ddrphy.py:32-35 | the command phase lies in [0, nphases); the data phase is `sys_latency*nphases - cl`; the command phase is congruent to `dat_phase - 1` modulo nphases (Python's floored `%`) |
| Ddr3Timing.PhasesOfSysLatency | ecp5ddrphy.py:32-35 | with the ceiling latency, the data phase lies in [0, nphases) and the command phase is the phase before it, wrapping to nphases-1 |
| Ddr3Timing.Log2Int | ecp5ddrphy.py:86 | `2^k <= n < 2^(k+1)`: the integer base-2 log used in the read latency |
| Ddr3Timing.PhySettingsFor | ecp5ddrphy.py:40-88 | with `tck = 2/(4*sys_clk_freq)`, settings exist iff sys_clk_freq <= 200 MHz; then memtype DDR3, dfi_databits 4*databits, nphases 2, rdphase 0, rdcmdphase 1, wrphase 1, wrcmdphase 0, cl 6, cwl 5, read_latency 2+3+2+1+3, write_latency = cwl_sys_latency = 3 |
| Ddr3Timing.DefaultClockSupported | ecp5ddrphy.py:40 | the default sys_clk_freq of 100 MHz is supported, with the same settings as any other supported clock |
| Ddr3Timing.PhySettingsInRange | ecp5ddrphy.py:73-88 | every phase of derived settings lies in [0, nphases), and both latencies are at least 1 |
| PhyLogic.DqsSerdesPattern | ecp5ddrphy.py:208-220 | the pattern is always 0x00, 0x01 or 0x55; it is 0x01 exactly when write levelling is on and strobed; it is the reset 0x55 exactly when write levelling is off and neither preamble nor postamble is set |
| PhyLogic.SerializerInputs | ecp5ddrphy.py:255-258 | the four serializer inputs D0..D3 are bits 0..3 of the pattern |
| PhyLogic.DqsStrobeInPhy | ecp5ddrphy.py:206-220 | with the undriven preamble/postamble: a strobe in write levelling sends one pulse on D0 only; write levelling without strobe sends nothing; otherwise D0..D3 toggle 1,0,1,0 |
| PhyLogic.Slot | ecp5ddrphy.py:225-229 | the index `s*width+i` of beat s lies in the s-th block of `width` bits and within the 4*width-bit DFI word |
| PhyLogic.DqData | ecp5ddrphy.py:284-289 | bit k of dq_data for pin j is bit `(k%4)*databits + j` of DFI phase `k/4`'s wrdata |
| PhyLogic.DmData | ecp5ddrphy.py:225-230 | bit k of dm_data for lane i is bit `(k%4)*(databits/8) + i` of DFI phase `k/4`'s wrdata_mask |
| PhyLogic.NibbleMux | ecp5ddrphy.py:291-296 | the muxed nibble is bits 4..7 of the registered word when bl8_sel is set, else bits 0..3 of the current word |
| PhyLogic.DqBeat | ecp5ddrphy.py:284-296 | beat s of pin j is the previous cycle's phase-1 wrdata bit when bl8_sel is set, else the current phase-0 wrdata bit, at slot (s, j) |
| PhyLogic.DmBeat | ecp5ddrphy.py:222-237 | the same for the data mask of lane i |
| PhyLogic.BitslipNext | ecp5ddrphy.py:334-341 | an unselected lane keeps its offset; a selected lane resets to 0 on a reset pulse, otherwise advances modulo 4 on an increment pulse, otherwise keeps it; the value stays below 4 |
| PhyLogic.BitslipAfterIncrements | ecp5ddrphy.py:334-341 | n increments keep the bitslip value below 4 |
| PhyLogic.BitslipIncrementsAdd | ecp5ddrphy.py:334-341 | n increments from v give `(v + n) mod 4`, the wrap-around of the 2-bit counter |
| PhyLogic.BitslipFourIncrementsIdentity | ecp5ddrphy.py:334-341 | four increments return the bitslip to where it started |
| PhyLogic.DqsBufControlsOf | ecp5ddrphy.py:173-177 | definition of RDLOADN, RDMOVE, WRLOADN and WRMOVE of lane i's DQSBUFM; its meaning is stated by the four lemmas below |
| PhyLogic.DqsBufIdleUnlessSelected | ecp5ddrphy.py:173-177 | a DQSBUFM sees no load (the load inputs are active low) and no move exactly when `dly_sel[lane // 8]` is clear or no delay CSR is pulsed |
| PhyLogic.DqsBufSelectedSeesPulses | ecp5ddrphy.py:173-177 | when `dly_sel[lane // 8]` is set, each reset pulse drives its load input low and each increment pulse drives its move input high |
| PhyLogic.DqsBufFollowsLaneZero | ecp5ddrphy.py:173-177 | every lane below 8 gets the same four controls as lane 0, whatever `dly_sel` and the CSR pulses are |
| PhyLogic.DqsBufIgnoresLaneSelect | ecp5ddrphy.py:173-177 | if only lane 1..7 is selected, its DQSBUFM sees no load and no move, while its bitslip counters (line 335) still increment |
| PhyLogic.DriveLane | ecp5ddrphy.py:344-349 | the pins of lane i drive `rd0[i]` (last pin wins), `rd0[databits+j]`, `rd1[j]` and `rd1[databits+j]` from bitslip beats 0..3, and nothing else |
| PhyLogic.DriveReadData | ecp5ddrphy.py:344-349 | phase 0 bit i holds beat 0 of pin 8i+7; its bits databits/8..databits-1 stay 0; phase 0 bit databits+j, phase 1 bit j and phase 1 bit databits+j hold beats 1, 2, 3 of pin j; the upper halves stay 0 |
| PhyLogic.ShiftIn | ecp5ddrphy.py:379 | shifting x into a register puts x at bit 0 and moves every other bit up by one |
| PhyLogic.Register | ecp5ddrphy.py:369-372 | an n-bit shift register has n bits |
| PhyLogic.RegisterStep | ecp5ddrphy.py:379 | one clock with input x turns the register of xs into the register of `xs + [x]` |
| PhyLogic.RegisterTap | ecp5ddrphy.py:377-379 | bit k of the register holds the input from k+1 cycles ago, or 0 when there was none |
| PhyLogic.ReadValidNext | ecp5ddrphy.py:373-374 | definition: the next rddata_valid is the last stage of the rddata_en delay chain (rddata_en itself when the chain is empty) or wlevel_en; stated through ReadValidStep and ReadValidLatency |
| PhyLogic.ReadValid | ecp5ddrphy.py:368-374 | definition: rddata_valid after traces of rddata_en and wlevel_en from reset; its meaning is stated by ReadValidLatency and ReadValidPulse |
| PhyLogic.ReadValidStep | ecp5ddrphy.py:368-374 | one clock of rddata_valid follows the last stage of the delay chain or wlevel_en, both from the previous cycle |
| PhyLogic.ReadValidLatency | ecp5ddrphy.py:368-374 | rddata_valid is rddata_en from read_latency cycles ago, or wlevel_en from the last cycle |
| PhyLogic.ReadValidPulse | ecp5ddrphy.py:368-374 | outside write levelling, a single rddata_en pulse at cycle p gives exactly one rddata_valid, at cycle p + read_latency |
| PhyLogic.OutputEnable | ecp5ddrphy.py:380-384 | oe is set iff taps cwl_sys_latency-1 .. cwl_sys_latency+2 of last_wrdata_en hold a 1 |
| PhyLogic.OutputEnableWindow | ecp5ddrphy.py:376-384 | oe is set iff wrdata_en was set between cwl_sys_latency and cwl_sys_latency+3 cycles ago |
| PhyLogic.OutputEnablePulse | ecp5ddrphy.py:376-384 | a single wrdata_en pulse at cycle p holds oe for exactly the four cycles p+cwl_sys_latency .. p+cwl_sys_latency+3 |
| PhyLogic.OeRegistersNext | ecp5ddrphy.py:385-390 | definition: the next (oe_dqs, oe_dq) is (1, 0) under write levelling, else (oe, oe); stated through OeRegistersStep and OeRegistersPulse |
| PhyLogic.OeRegisters | ecp5ddrphy.py:376-390 | definition: (oe_dqs, oe_dq) after traces of wrdata_en and wlevel_en from reset; its meaning is stated by OeRegistersPulse |
| PhyLogic.OeRegistersStep | ecp5ddrphy.py:376-392 | one clock of (oe_dqs, oe_dq) and of bl8_sel follows oe, wlevel_en and tap cwl_sys_latency-1 of the previous cycle |
| PhyLogic.OeRegistersPulse | ecp5ddrphy.py:385-390 | write levelling forces oe_dqs to 1 and oe_dq to 0; otherwise, for a single wrdata_en pulse at cycle p, both are set exactly in cycles p+cwl_sys_latency+1 .. p+cwl_sys_latency+4, one cycle after oe |
| PhyLogic.Bl8Sel | ecp5ddrphy.py:392 | definition: bl8_sel after a trace of wrdata_en from reset, the registered tap cwl_sys_latency-1; its meaning is stated by Bl8SelLatency |
| PhyLogic.Bl8SelLatency | ecp5ddrphy.py:392 | bl8_sel is wrdata_en from cwl_sys_latency+1 cycles ago |
| Ecp5Phy.ResetFlow | ecp5ddrphy.py:368-392 | the reset flow registers agree with the empty traces |
| Ecp5Phy.ResetData | ecp5ddrphy.py:222-343 | the reset data registers have their widths, and every bitslip offset is 0 |
| Ecp5Phy.NextFlow | ecp5ddrphy.py:368-392 | one clock of the flow registers keeps the chain lengths read_latency-1 and cwl_sys_latency+3 |
| Ecp5Phy.NextReadMatches | ecp5ddrphy.py:368-374 | one clock of the read flow registers extends their agreement with the rddata_en and wlevel_en traces by the new inputs |
| Ecp5Phy.NextWriteMatches | ecp5ddrphy.py:376-392 | one clock of last_wrdata_en, oe_dq, oe_dqs and bl8_sel extends their agreement with the wrdata_en and wlevel_en traces |
| Ecp5Phy.BitslipStep | ecp5ddrphy.py:332-341 | every pin j's offset follows `BitslipNext` with the select bit of its lane `j // 8` |
| Ecp5Phy.NextData | ecp5ddrphy.py:222-343 | one clock keeps the data registers well shaped |
| Ecp5Phy.NextDataContents | ecp5ddrphy.py:222-343 | after one clock, dq_data_d and dm_data_d hold this cycle's packed words, and each offset is unchanged, reset, or advanced modulo 4 by its lane's select bit and the CSR pulses |
| Ecp5Phy.StepConsistent | ecp5ddrphy.py:332-392 | one clock preserves the invariant tying all registers to the traces extended by the new inputs |
| Ecp5Phy.Ecp5DdrPhy.constructor | ecp5ddrphy.py:40-88 | a PHY built at a supported frequency has the derived settings, its registers at reset and empty traces |
| Ecp5Phy.Ecp5DdrPhy.Step | ecp5ddrphy.py:332-392 | one system clock: the registers take their next values from rdphase's rddata_en, wrphase's wrdata_en and the CSRs; the traces are extended; the invariant is kept |
| Ecp5Phy.Ecp5DdrPhy.OutputEnableNow | ecp5ddrphy.py:376-384 | oe now is set iff wrdata_en was set between cwl_sys_latency and cwl_sys_latency+3 cycles ago in the trace |
| Ecp5Phy.Ecp5DdrPhy.RddataValidOfPhases | ecp5ddrphy.py:368-374 | all four DFI phases' rddata_valid equal rddata_en from read_latency cycles ago or the last wlevel_en |
| Ecp5Phy.Ecp5DdrPhy.DqOut | ecp5ddrphy.py:284-296 | pin j sends the registered word's upper nibble when bl8_sel is set, else phase 0's four wrdata beats |
| Ecp5Phy.Ecp5DdrPhy.DmOut | ecp5ddrphy.py:222-237 | the same for the data mask of lane i |
| Console.Edit | firmware/main.c:25-48 | one key that does not end the line leaves the line as it was, appends the key, or drops the last character; the line stays below 64; which key does what is stated by TypedLineBell, TypedLineErase and TypedLineStored |
| Console.TypedLine | firmware/main.c:16-52 | the line after a sequence of keys without a line end is shorter than 64 and no longer than the keys |
| Console.TypedLineStep | firmware/main.c:25-48 | typing one more key applies `Edit` to the line typed so far |
| Console.TypedLineBell | firmware/main.c:33-34 | the bell leaves the typed line unchanged |
| Console.TypedLineErase | firmware/main.c:26-32 | an erase (0x7f or 0x08) drops the last typed character, and does nothing on an empty line |
| Console.TypedLineStored | firmware/main.c:41-47 | any other key is appended while fewer than 63 characters are stored, and dropped otherwise |
| Console.TypedLineOfStoredKeys | firmware/main.c:41-47 | plain keys are stored as typed and truncated to the first 63 |
| Console.EraseUndoesKey | firmware/main.c:26-47 | an erase after a stored key restores the line while there is room |
| Console.FullLineDropsKey | firmware/main.c:41-43 | on a full line a key is dropped, and an erase then removes the last stored character |
| Console.CString | firmware/main.c:58-61 | the C string at a buffer is its longest NUL-free prefix, ended by a NUL when one is present |
| Console.CStringOfTerminated | firmware/main.c:36-40 | writing a NUL after a line ends the C string there, whatever follows |
| Console.CStringDrop | firmware/main.c:64-66 | advancing the pointer within a string gives the rest of that string |
| Console.IndexOf | firmware/main.c:58 | `strchr`: None iff the character is absent, otherwise its first position |
| Console.SplitToken | firmware/main.c:54-68 | the token has no space; with a space present, token + " " + rest is the string; without one, the whole string is the token and the rest is empty |
| Console.IndexOfFirst | firmware/main.c:58 | the first occurrence of c in x + [c] + y is at |x| when x has no c |
| Console.SplitJoinedToken | firmware/main.c:54-68 | splitting a space-free token joined to any rest by a space gives back the two parts |
| Console.SplitAtSpace | firmware/main.c:63-67 | writing a NUL over the first space leaves the token before it and the rest after it as C strings |
| Console.TokenStep | firmware/main.c:54-68 | with a space in the C string at the pointer, exactly the first space (no space or NUL before it) becomes NUL and the new pointer is just past it; without one, the buffer is unchanged and the new pointer is at the terminating NUL |
| Console.TokenStepSplits | firmware/main.c:54-68 | after `get_token`, the C string at the old pointer is the token and the C string at the new pointer is the rest |
| Console.GetToken | firmware/main.c:54-68 | the in-place `get_token`: the token starts at the old pointer, the buffer and new pointer are those of `TokenStep`, and token and rest are the split of the old string |
| Console.Dispatch | firmware/main.c:133-149 | each command is chosen iff the token is its long or one-letter name; sdram_bist only with the generator; no command otherwise |
| Console.Unsigned32 | firmware/main.c:150-153 | storing an int into an unsigned int keeps it modulo 2^32 |
| Console.BistBurstLength | firmware/main.c:150-155 | a parsed burst length of 0 (modulo 2^32) becomes 128; any other value is kept |
| Console.Respond | firmware/main.c:132-157 | a line runs the BIST iff its first token dispatches to sdram_bist, with a burst length in (0, 2^32) and a random flag below 2^32; otherwise it runs the dispatched command; the argument values are stated by BistArguments, BistOneArgument and BistDefaults |
| Console.BistArguments | firmware/main.c:149-157 | "sdram_bist B rest" runs the BIST with burst length atoi(B) (0 becoming 128) and random flag atoi of the first token of rest; any later tokens are ignored |
| Console.BistOneArgument | firmware/main.c:149-155 | "sdram_bist B", with the optional random flag left out, runs the BIST with burst length atoi(B) (0 becoming 128) and random flag atoi("") |
| Console.BistDefaults | firmware/main.c:152-155 | a bare "sdram_bist" runs the BIST with burst length 128 and random 0 |
| Console.SplitInPlace | firmware/main.c:132-153 | definition of the buffer after console_service's get_token calls (one for the command, two more for sdram_bist); its own ensures states that only spaces turn into NULs, and TokenStep's contract says which spaces |
| Console.RunLine | firmware/main.c:132-160 | the response to the C string in the buffer; the new buffer is `SplitInPlace` of the old one, so only the first space of each consumed token has turned into NUL |
| Console.Console.constructor | firmware/main.c:18-20 | a console starts with a zero-filled 64-byte buffer, pointer 0 and nothing typed |
| Console.Console.ReadStr | firmware/main.c:16-52 | no input changes nothing; a line end writes a NUL at the pointer, returns the buffer whose C string is the typed line, and resets the pointer; any other key edits the line, storing or dropping it in the buffer as `Edit` says |
| Console.Console.Service | firmware/main.c:125-161 | a line end responds to the typed line as `Respond` says, leaves the buffer as `SplitInPlace` of the NUL-terminated line and starts a new line; any other key only edits the line; no input does nothing |

## Left out

- Vendor primitives (ODDRX2F, DQSBUFM, ODDRX2DQA, ODDRX2DQSB, TSHX2DQSA, TSHX2DQA, IDDRX2DQA) and `Tristate`: only the signals the PHY feeds into them are modelled, not what they do. The clock, address and command pins are not modelled.
- The BitSlip submodule's output word is an input (`slipped`) of `DriveReadData`. The register `dq_i_data_d` is not used by any output and is left out.
- `tck` and `sys_clk_freq` are floats in the source. The model uses an exact rational period and a frequency in whole hertz.
- `log2_int` of a non-power of two: the library function is not part of this model. `Log2Int` is the floor logarithm, which agrees on the argument 2 that the source uses.
- `nranks` is a parameter; the source counts the `cs_n` pads.
- The BitSlip submodule is not part of this model. BitslipNext takes the width of its `value` signal, 2 bits for `BitSlip(4)`, from the library's declaration. The source shows only `value + 1` (ecp5ddrphy.py:339); the model wraps it modulo 4 on that basis.
- The number of DQ pins must be a multiple of 8 (`databits % 8 == 0` in `WellFormedPhases`, `DriveLane`, `DriveReadData`, `BitslipStep` and the PHY constructor). The source accepts any `len(pads.dq)`. Its mask index `s*databits//8+i` (ecp5ddrphy.py:226-229) equals the model's `s*(databits/8)+i` only for whole byte lanes. Partial byte lanes are not modelled.
- Ecp5Phy.Ecp5DdrPhy: the register bank is kept as two record fields, `flow` and `data`, rather than one field per signal.
- Ecp5Phy.NextData: its own ensures states only the register shapes; the contents are stated by `NextDataContents`.
- Ecp5Phy.NextFlow: its own ensures states only the register lengths; what the registers hold is stated by `NextReadMatches` and `NextWriteMatches`.
- `readchar_nonblock`/`readchar` become one `Option<char>` input per call: `None` means no key is waiting.
- The echo and prompt output (`putsnonl`, `printf`, `prompt`) is not modelled.
- The bodies of `help`, `lastaddr`, `printhdr`, `loadsound`, `reboot` and `sdram_bist` are not modelled: dispatch returns which of them runs, and for `sdram_bist` its arguments.
- `atoi` is a function parameter, because its library body is not part of this model.
- `main`, the interrupt code, the network boot and the other files of the repository (`versa_ecp5.py`, `rom.py`, `isr.c`, `sdram.h`, `load.py`, `test_analyzer.py`) are not part of this model.
