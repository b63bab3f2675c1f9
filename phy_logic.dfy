/**
 * The synchronous control logic of the ECP5 DDR3 PHY as pure functions: the
 * combinational signals (DQS serializer pattern, write-data packing and
 * nibble mux, read-data wiring, DQS buffer delay controls), the next-state
 * function of each register, and the registers' value after a whole trace
 * of inputs since reset.
 *
 * A multi-bit signal is a seq<bool> with bit 0 first, as migen's Cat builds
 * it. A trace is a seq of per-cycle input values, oldest first: after the
 * inputs xs, the design is in cycle |xs|, and xs[|xs| - d] is the input
 * from d cycles before the current one.
 */
module PhyLogic {

  // ---- DQS pattern -------------------------------------------------------------------------

  /** dqs_serdes_pattern (0x01 is 0b00000001, 0x55 is 0b01010101); bit k drives serializer input Dk. */
  function DqsSerdesPattern(wlevelEn: bool, wlevelStrobe: bool, preamble: bool, postamble: bool): (p: bv8)
    ensures p == 0x00 || p == 0x01 || p == 0x55
    ensures p == 0x01 <==> wlevelEn && wlevelStrobe
    ensures p == 0x55 <==> !wlevelEn && !preamble && !postamble
  {
    if wlevelEn then
      if wlevelStrobe then 0x01 else 0x00
    else if preamble || postamble then 0x00
    else 0x55
  }

  /** The serializer inputs D0..D3 the DQS output buffer takes from a pattern. */
  function SerializerInputs(p: bv8): (d: seq<bool>)
    ensures |d| == 4 && forall k :: 0 <= k < 4 ==> d[k] == ((p >> k) & 1 == 1)
  {
    [p & 1 == 1, (p >> 1) & 1 == 1, (p >> 2) & 1 == 1, (p >> 3) & 1 == 1]
  }

  /**
   * dqs_preamble and dqs_postamble are declared but never driven, so in the
   * PHY they are constant 0: outside write levelling the strobe toggles
   * high, low, high, low in every system cycle; during write levelling it
   * carries a single high beat on D0 per strobe pulse, and is otherwise low.
   */
  lemma DqsStrobeInPhy(wlevelEn: bool, wlevelStrobe: bool)
    ensures var d := SerializerInputs(DqsSerdesPattern(wlevelEn, wlevelStrobe, false, false));
            if !wlevelEn then d == [true, false, true, false]
            else if wlevelStrobe then d == [true, false, false, false]
            else d == [false, false, false, false]
  {
  }

  // ---- Write data and mask packing -----------------------------------------------------------

  /** The DFI write-side signals of one phase. */
  datatype DfiPhase = DfiPhase(wrdata: seq<bool>, wrdataMask: seq<bool>, wrdataEn: bool, rddataEn: bool)

  /**
   * The DFI interface is built with four phases (although the settings
   * announce two, and only phases 0 and 1 carry data).
   */
  const DfiPhaseCount: nat := 4

  /** The DFI phases, whose data is 4 * databits wide and mask 4 * databits / 8 wide, for whole byte lanes. */
  predicate WellFormedPhases(phases: seq<DfiPhase>, databits: nat)
  {
    |phases| == DfiPhaseCount && databits % 8 == 0 &&
    forall p :: 0 <= p < DfiPhaseCount ==> |phases[p].wrdata| == 4 * databits && |phases[p].wrdataMask| == 4 * (databits / 8)
  }

  /** Where beat s of bit i sits in a phase's data (or mask) of four beats of width bits each. */
  function Slot(s: nat, width: nat, i: nat): (k: nat)
    requires s < 4 && i < width
    ensures s * width <= k < (s + 1) * width && k < 4 * width
  {
    if s == 0 then i else if s == 1 then width + i else if s == 2 then 2 * width + i else 3 * width + i
  }

  /** dq_data of DQ pin j: the 8 beats of the cycle, phase-major. */
  function DqData(phases: seq<DfiPhase>, databits: nat, j: nat): (d: seq<bool>)
    requires WellFormedPhases(phases, databits) && j < databits
    ensures |d| == 8
    ensures forall k :: 0 <= k < 8 ==> d[k] == phases[k / 4].wrdata[Slot(k % 4, databits, j)]
  {
    var p0, p1 := phases[0].wrdata, phases[1].wrdata;
    [p0[j], p0[databits + j], p0[2 * databits + j], p0[3 * databits + j],
     p1[j], p1[databits + j], p1[2 * databits + j], p1[3 * databits + j]]
  }

  /** dm_data of byte lane i; the mask bit of beat s of lane i sits at s * databits / 8 + i. */
  function DmData(phases: seq<DfiPhase>, databits: nat, i: nat): (d: seq<bool>)
    requires WellFormedPhases(phases, databits) && i < databits / 8
    ensures |d| == 8
    ensures forall k :: 0 <= k < 8 ==> d[k] == phases[k / 4].wrdataMask[Slot(k % 4, databits / 8, i)]
  {
    var n := databits / 8;
    var m0, m1 := phases[0].wrdataMask, phases[1].wrdataMask;
    [m0[i], m0[n + i], m0[2 * n + i], m0[3 * n + i],
     m1[i], m1[n + i], m1[2 * n + i], m1[3 * n + i]]
  }

  /** The 4-bit mux in front of each output serializer: the previous cycle's upper half, or this cycle's lower half. */
  function NibbleMux(bl8Sel: bool, current: seq<bool>, previous: seq<bool>): (m: seq<bool>)
    requires |current| == 8 && |previous| == 8
    ensures |m| == 4
    ensures forall s :: 0 <= s < 4 ==> m[s] == if bl8Sel then previous[4 + s] else current[s]
  {
    if bl8Sel then previous[4..] else current[..4]
  }

  /**
   * What DQ pin j serializes as beat s: with bl8_sel, the previous cycle's
   * phase-1 data; otherwise this cycle's phase-0 data.
   */
  lemma DqBeat(phases: seq<DfiPhase>, previous: seq<DfiPhase>, databits: nat, j: nat, bl8Sel: bool, s: nat)
    requires WellFormedPhases(phases, databits) && WellFormedPhases(previous, databits)
    requires j < databits && s < 4
    ensures NibbleMux(bl8Sel, DqData(phases, databits, j), DqData(previous, databits, j))[s] ==
            if bl8Sel then previous[1].wrdata[Slot(s, databits, j)] else phases[0].wrdata[Slot(s, databits, j)]
  {
    assert (4 + s) / 4 == 1 && (4 + s) % 4 == s;
    assert s / 4 == 0 && s % 4 == s;
  }

  /** The same for the data mask of byte lane i. */
  lemma DmBeat(phases: seq<DfiPhase>, previous: seq<DfiPhase>, databits: nat, i: nat, bl8Sel: bool, s: nat)
    requires WellFormedPhases(phases, databits) && WellFormedPhases(previous, databits)
    requires i < databits / 8 && s < 4
    ensures NibbleMux(bl8Sel, DmData(phases, databits, i), DmData(previous, databits, i))[s] ==
            if bl8Sel then previous[1].wrdataMask[Slot(s, databits / 8, i)] else phases[0].wrdataMask[Slot(s, databits / 8, i)]
  {
    assert (4 + s) / 4 == 1 && (4 + s) % 4 == s;
    assert s / 4 == 0 && s % 4 == s;
  }

  // ---- Read-side bitslip offset and wiring ------------------------------------------------

  /** BitSlip(4) keeps its offset in a 2-bit register, so an increment wraps from 3 to 0. */
  const BitslipOffsets: nat := 4

  /** The next value of a DQ pin's bitslip offset, given its lane's dly_sel bit and the two CSR pulses. */
  function BitslipNext(value: nat, laneSelected: bool, rstPulse: bool, incPulse: bool): (v: nat)
    requires value < BitslipOffsets
    ensures v < BitslipOffsets
    ensures !laneSelected ==> v == value
    ensures laneSelected && rstPulse ==> v == 0
    ensures laneSelected && !rstPulse && incPulse ==> v == (value + 1) % BitslipOffsets
    ensures laneSelected && !rstPulse && !incPulse ==> v == value
  {
    if laneSelected then
      if rstPulse then 0
      else if incPulse then (value + 1) % BitslipOffsets
      else value
    else value
  }

  /** The offset after n increment pulses on a selected lane. */
  function BitslipAfterIncrements(value: nat, n: nat): (v: nat)
    requires value < BitslipOffsets
    ensures v < BitslipOffsets
  {
    if n == 0 then value else BitslipNext(BitslipAfterIncrements(value, n - 1), true, false, true)
  }

  /** Counting on from a residue modulo 4 is counting on from the number. */
  lemma ModFourSucc(m: nat)
    ensures (m % 4 + 1) % 4 == (m + 1) % 4
  {
    var q, r := m / 4, m % 4;
    assert m == 4 * q + r;
    if r < 3 {
      assert m + 1 == 4 * q + (r + 1);
    } else {
      assert m + 1 == 4 * (q + 1);
    }
  }

  /** n increments advance the offset by n, cyclically. */
  lemma {:induction false} BitslipIncrementsAdd(value: nat, n: nat)
    requires value < BitslipOffsets
    ensures BitslipAfterIncrements(value, n) == (value + n) % BitslipOffsets
  {
    if n > 0 {
      BitslipIncrementsAdd(value, n - 1);
      ModFourSucc(value + n - 1);
    }
  }

  /** Four increments bring the offset back to where it was. */
  lemma BitslipFourIncrementsIdentity(value: nat)
    requires value < BitslipOffsets
    ensures BitslipAfterIncrements(value, 4) == value
  {
    BitslipIncrementsAdd(value, 4);
  }

  /** The delay controls of lane i's DQS buffer; the lane is picked by dly_sel bit i / 8. */
  datatype DqsBufControls = DqsBufControls(rdLoadN: bool, rdMove: bool, wrLoadN: bool, wrMove: bool)

  function DqsBufControlsOf(dlySel: seq<bool>, lane: nat, rdlyRst: bool, rdlyInc: bool, wdlyRst: bool, wdlyInc: bool): DqsBufControls
    requires lane / 8 < |dlySel|
  {
    var sel := dlySel[lane / 8];
    DqsBufControls(!(sel && rdlyRst), sel && rdlyInc, !(sel && wdlyRst), sel && wdlyInc)
  }

  /** The controls of a DQS buffer at rest: no load (active low) and no move. */
  const DqsBufIdle := DqsBufControls(true, false, true, false)

  /** A DQS buffer is at rest exactly when its select bit is clear or no delay CSR is pulsed. */
  lemma DqsBufIdleUnlessSelected(dlySel: seq<bool>, lane: nat, rdlyRst: bool, rdlyInc: bool, wdlyRst: bool, wdlyInc: bool)
    requires lane / 8 < |dlySel|
    ensures DqsBufControlsOf(dlySel, lane, rdlyRst, rdlyInc, wdlyRst, wdlyInc) == DqsBufIdle <==>
            !dlySel[lane / 8] || (!rdlyRst && !rdlyInc && !wdlyRst && !wdlyInc)
  {
  }

  /** A selected DQS buffer sees every delay CSR pulse: a reset as a low load input, an increment as a move. */
  lemma DqsBufSelectedSeesPulses(dlySel: seq<bool>, lane: nat, rdlyRst: bool, rdlyInc: bool, wdlyRst: bool, wdlyInc: bool)
    requires lane / 8 < |dlySel| && dlySel[lane / 8]
    ensures DqsBufControlsOf(dlySel, lane, rdlyRst, rdlyInc, wdlyRst, wdlyInc) == DqsBufControls(!rdlyRst, rdlyInc, !wdlyRst, wdlyInc)
  {
  }

  /** Because the DQS buffer of lane i uses dly_sel bit i / 8, lanes 0..7 all share the controls of lane 0. */
  lemma DqsBufFollowsLaneZero(dlySel: seq<bool>, lane: nat, rdlyRst: bool, rdlyInc: bool, wdlyRst: bool, wdlyInc: bool)
    requires lane < 8 && 0 < |dlySel|
    ensures DqsBufControlsOf(dlySel, lane, rdlyRst, rdlyInc, wdlyRst, wdlyInc) ==
            DqsBufControlsOf(dlySel, 0, rdlyRst, rdlyInc, wdlyRst, wdlyInc)
  {
  }

  /**
   * The bitslip uses dly_sel bit i itself, so with only lane i > 0 selected,
   * lane i's bitslip moves and its DQS delay does not.
   */
  lemma DqsBufIgnoresLaneSelect(dlySel: seq<bool>, lane: nat, rdlyRst: bool, rdlyInc: bool, wdlyRst: bool, wdlyInc: bool)
    requires 0 < lane < 8 && lane < |dlySel|
    requires dlySel[lane] && !dlySel[0]
    ensures DqsBufControlsOf(dlySel, lane, rdlyRst, rdlyInc, wdlyRst, wdlyInc) == DqsBufIdle
    ensures BitslipNext(0, dlySel[lane], false, true) == 1
  {
  }

  /**
   * The comb assignments of the read path for the eight DQ pins j of lane i,
   * in order: rddata[i] of phase 0 (every pin of the lane writes the same bit,
   * so the lane's last pin wins), rddata[databits + j] of phase 0, and
   * rddata[j] and rddata[databits + j] of phase 1, from the four bits of pin
   * j's bitslip output.
   */
  method DriveLane(databits: nat, slipped: seq<seq<bool>>, i: nat, rd0: seq<bool>, rd1: seq<bool>)
    returns (rd0': seq<bool>, rd1': seq<bool>)
    requires databits % 8 == 0 && |slipped| == databits && i < databits / 8
    requires forall j :: 0 <= j < databits ==> |slipped[j]| == 4
    requires |rd0| == 4 * databits && |rd1| == 4 * databits
    ensures |rd0'| == 4 * databits && |rd1'| == 4 * databits
    ensures rd0'[i] == slipped[8 * i + 7][0]
    ensures forall j :: 8 * i <= j < 8 * i + 8 ==>
              rd0'[databits + j] == slipped[j][1] && rd1'[j] == slipped[j][2] && rd1'[databits + j] == slipped[j][3]
    ensures forall k :: 0 <= k < 4 * databits && k != i && !(databits + 8 * i <= k < databits + 8 * i + 8) ==>
              rd0'[k] == rd0[k]
    ensures forall k :: 0 <= k < 4 * databits && !(8 * i <= k < 8 * i + 8) && !(databits + 8 * i <= k < databits + 8 * i + 8) ==>
              rd1'[k] == rd1[k]
  {
    rd0', rd1' := rd0, rd1;
    var j := 8 * i;
    while j < 8 * i + 8
      invariant 8 * i <= j <= 8 * i + 8 <= databits
      invariant |rd0'| == 4 * databits && |rd1'| == 4 * databits
      invariant 8 * i < j ==> rd0'[i] == slipped[j - 1][0]
      invariant forall j' :: 8 * i <= j' < j ==>
                  rd0'[databits + j'] == slipped[j'][1] && rd1'[j'] == slipped[j'][2] && rd1'[databits + j'] == slipped[j'][3]
      invariant forall k :: 0 <= k < 4 * databits && k != i && !(databits + 8 * i <= k < databits + j) ==>
                  rd0'[k] == rd0[k]
      invariant forall k :: 0 <= k < 4 * databits && !(8 * i <= k < j) && !(databits + 8 * i <= k < databits + j) ==>
                  rd1'[k] == rd1[k]
    {
      var o := slipped[j];
      rd0' := rd0'[i := o[0]][databits + j := o[1]];
      rd1' := rd1'[j := o[2]][databits + j := o[3]];
      j := j + 1;
    }
  }

  /**
   * The read path of all byte lanes. Bits nothing drives keep their reset
   * value 0. Returns the 4 * databits wide rddata of both phases.
   */
  method DriveReadData(databits: nat, slipped: seq<seq<bool>>) returns (rd0: seq<bool>, rd1: seq<bool>)
    requires databits % 8 == 0 && |slipped| == databits
    requires forall j :: 0 <= j < databits ==> |slipped[j]| == 4
    ensures |rd0| == 4 * databits && |rd1| == 4 * databits
    ensures forall i :: 0 <= i < databits / 8 ==> rd0[i] == slipped[8 * i + 7][0]
    ensures forall k :: databits / 8 <= k < databits ==> !rd0[k]
    ensures forall j :: 0 <= j < databits ==> rd0[databits + j] == slipped[j][1]
    ensures forall j :: 0 <= j < databits ==> rd1[j] == slipped[j][2] && rd1[databits + j] == slipped[j][3]
    ensures forall k :: 2 * databits <= k < 4 * databits ==> !rd0[k] && !rd1[k]
  {
    rd0 := seq(4 * databits, _ => false);
    rd1 := seq(4 * databits, _ => false);
    var i := 0;
    while i < databits / 8
      invariant 0 <= i <= databits / 8
      invariant |rd0| == 4 * databits && |rd1| == 4 * databits
      invariant forall l :: 0 <= l < i ==> rd0[l] == slipped[8 * l + 7][0]
      invariant forall j :: 0 <= j < 8 * i ==>
                  rd0[databits + j] == slipped[j][1] && rd1[j] == slipped[j][2] && rd1[databits + j] == slipped[j][3]
      invariant forall k :: i <= k < databits || databits + 8 * i <= k < 4 * databits ==> !rd0[k]
      invariant forall k :: 8 * i <= k < databits || databits + 8 * i <= k < 4 * databits ==> !rd1[k]
    {
      rd0, rd1 := DriveLane(databits, slipped, i, rd0, rd1);
      i := i + 1;
    }
  }

  // ---- Shift registers ---------------------------------------------------------------------

  function Zeros(n: nat): (z: seq<bool>)
    ensures |z| == n && forall k :: 0 <= k < n ==> !z[k]
  {
    seq(n, _ => false)
  }

  /** One clock of `reg.eq(Cat(x, reg[:-1]))`: x enters at bit 0 and the top bit drops out. */
  function ShiftIn(reg: seq<bool>, x: bool): (r: seq<bool>)
    ensures |r| == |reg|
    ensures |reg| > 0 ==> r[0] == x
    ensures forall k :: 1 <= k < |reg| ==> r[k] == reg[k - 1]
  {
    if |reg| == 0 then [] else [x] + reg[..|reg| - 1]
  }

  /** An n-bit shift register (or chain of n registers) after the trace xs, from reset. */
  function Register(xs: seq<bool>, n: nat): (r: seq<bool>)
    ensures |r| == n
  {
    if xs == [] then Zeros(n) else ShiftIn(Register(xs[..|xs| - 1], n), xs[|xs| - 1])
  }

  /** One more cycle of input shifts it into the register. */
  lemma RegisterStep(xs: seq<bool>, x: bool, n: nat)
    ensures Register(xs + [x], n) == ShiftIn(Register(xs, n), x)
  {
    assert (xs + [x])[..|xs|] == xs;
  }

  /** Bit k holds the input from k + 1 cycles ago, or 0 while that lies before reset. */
  lemma {:induction false} RegisterTap(xs: seq<bool>, n: nat, k: nat)
    requires k < n
    ensures Register(xs, n)[k] == (k < |xs| && xs[|xs| - 1 - k])
  {
    if xs != [] {
      var prev := xs[..|xs| - 1];
      if k > 0 {
        RegisterTap(prev, n, k - 1);
      }
    }
  }

  // ---- Read valid --------------------------------------------------------------------------

  /**
   * The next rddata_valid: the last register of the rddata_en chain (the
   * input itself when the chain is empty), OR-ed with the write-levelling
   * enable.
   */
  function ReadValidNext(chain: seq<bool>, rddataEn: bool, wlevelEn: bool): bool
  {
    (if |chain| == 0 then rddataEn else chain[|chain| - 1]) || wlevelEn
  }

  /** rddata_valid after the traces of rddata_en (of phase rdphase) and wlevel_en, behind a chain of depth registers. */
  function ReadValid(rddataEn: seq<bool>, wlevelEn: seq<bool>, depth: nat): bool
    requires |rddataEn| == |wlevelEn|
  {
    if rddataEn == [] then false
    else ReadValidNext(Register(rddataEn[..|rddataEn| - 1], depth), rddataEn[|rddataEn| - 1], wlevelEn[|wlevelEn| - 1])
  }

  lemma ReadValidStep(rddataEn: seq<bool>, wlevelEn: seq<bool>, depth: nat, x: bool, w: bool)
    requires |rddataEn| == |wlevelEn|
    ensures ReadValid(rddataEn + [x], wlevelEn + [w], depth) == ReadValidNext(Register(rddataEn, depth), x, w)
  {
    assert (rddataEn + [x])[..|rddataEn|] == rddataEn;
  }

  /**
   * With read_latency - 1 chain registers, rddata_valid is rddata_en from
   * exactly read_latency cycles earlier, OR-ed with wlevel_en from the
   * previous cycle.
   */
  lemma ReadValidLatency(rddataEn: seq<bool>, wlevelEn: seq<bool>, readLatency: nat)
    requires |rddataEn| == |wlevelEn| && readLatency >= 1
    ensures ReadValid(rddataEn, wlevelEn, readLatency - 1) ==
            ((|rddataEn| >= readLatency && rddataEn[|rddataEn| - readLatency]) ||
             (|wlevelEn| >= 1 && wlevelEn[|wlevelEn| - 1]))
  {
    if rddataEn != [] && readLatency > 1 {
      RegisterTap(rddataEn[..|rddataEn| - 1], readLatency - 1, readLatency - 2);
    }
  }

  /**
   * A single rddata_en pulse in cycle p, with write levelling off, makes
   * rddata_valid high in cycle p + read_latency and in no other cycle.
   */
  lemma ReadValidPulse(rddataEn: seq<bool>, wlevelEn: seq<bool>, readLatency: nat, p: nat, t: nat)
    requires |rddataEn| == |wlevelEn| && readLatency >= 1 && t <= |rddataEn|
    requires forall c :: 0 <= c < |rddataEn| ==> rddataEn[c] == (c == p)
    requires forall c :: 0 <= c < |wlevelEn| ==> !wlevelEn[c]
    ensures ReadValid(rddataEn[..t], wlevelEn[..t], readLatency - 1) == (t == p + readLatency)
  {
    ReadValidLatency(rddataEn[..t], wlevelEn[..t], readLatency);
  }

  // ---- Write output enable -----------------------------------------------------------------

  /** oe: the OR of taps cwl_sys_latency - 1 .. cwl_sys_latency + 2 of last_wrdata_en. */
  function OutputEnable(lastWrdataEn: seq<bool>, cwlSysLatency: nat): (oe: bool)
    requires cwlSysLatency >= 1 && |lastWrdataEn| == cwlSysLatency + 3
    ensures oe <==> exists k :: cwlSysLatency - 1 <= k <= cwlSysLatency + 2 && lastWrdataEn[k]
  {
    lastWrdataEn[cwlSysLatency - 1] || lastWrdataEn[cwlSysLatency] ||
    lastWrdataEn[cwlSysLatency + 1] || lastWrdataEn[cwlSysLatency + 2]
  }

  /**
   * oe in cycle t (after t cycles of wrdata_en of phase wrphase) is high iff
   * wrdata_en was high in some cycle c with t - cwl_sys_latency - 3 <= c <= t - cwl_sys_latency.
   */
  lemma OutputEnableWindow(wrdataEn: seq<bool>, cwlSysLatency: nat)
    requires cwlSysLatency >= 1
    ensures OutputEnable(Register(wrdataEn, cwlSysLatency + 3), cwlSysLatency) <==>
            exists c :: 0 <= c < |wrdataEn| && |wrdataEn| - cwlSysLatency - 3 <= c <= |wrdataEn| - cwlSysLatency && wrdataEn[c]
  {
    var t := |wrdataEn|;
    var reg := Register(wrdataEn, cwlSysLatency + 3);
    forall k | cwlSysLatency - 1 <= k <= cwlSysLatency + 2
      ensures reg[k] == (k < t && wrdataEn[t - 1 - k])
    {
      RegisterTap(wrdataEn, cwlSysLatency + 3, k);
    }
    if OutputEnable(reg, cwlSysLatency) {
      var k :| cwlSysLatency - 1 <= k <= cwlSysLatency + 2 && reg[k];
      assert wrdataEn[t - 1 - k];
    }
    if exists c :: 0 <= c < t && t - cwlSysLatency - 3 <= c <= t - cwlSysLatency && wrdataEn[c] {
      var c :| 0 <= c < t && t - cwlSysLatency - 3 <= c <= t - cwlSysLatency && wrdataEn[c];
      assert reg[t - 1 - c];
    }
  }

  /**
   * The output-enable plateau: a single wrdata_en pulse in cycle p makes oe
   * high in exactly the 4 consecutive cycles p + cwl_sys_latency ..
   * p + cwl_sys_latency + 3.
   */
  lemma OutputEnablePulse(wrdataEn: seq<bool>, cwlSysLatency: nat, p: nat, t: nat)
    requires cwlSysLatency >= 1 && t <= |wrdataEn|
    requires forall c :: 0 <= c < |wrdataEn| ==> wrdataEn[c] == (c == p)
    ensures OutputEnable(Register(wrdataEn[..t], cwlSysLatency + 3), cwlSysLatency) <==>
            p + cwlSysLatency <= t <= p + cwlSysLatency + 3
  {
    OutputEnableWindow(wrdataEn[..t], cwlSysLatency);
    if p + cwlSysLatency <= t <= p + cwlSysLatency + 3 {
      assert wrdataEn[..t][p];
    }
  }

  /** The registered (oe_dqs, oe_dq): write levelling drives DQS and releases DQ; otherwise both follow oe. */
  function OeRegistersNext(oe: bool, wlevelEn: bool): (bool, bool)
  {
    if wlevelEn then (true, false) else (oe, oe)
  }

  /** (oe_dqs, oe_dq) after the traces of wrdata_en and wlevel_en, from reset. */
  function OeRegisters(wrdataEn: seq<bool>, wlevelEn: seq<bool>, cwlSysLatency: nat): (bool, bool)
    requires cwlSysLatency >= 1 && |wrdataEn| == |wlevelEn|
  {
    if wrdataEn == [] then (false, false)
    else OeRegistersNext(OutputEnable(Register(wrdataEn[..|wrdataEn| - 1], cwlSysLatency + 3), cwlSysLatency),
                         wlevelEn[|wlevelEn| - 1])
  }

  lemma OeRegistersStep(wrdataEn: seq<bool>, wlevelEn: seq<bool>, cwlSysLatency: nat, x: bool, w: bool)
    requires cwlSysLatency >= 1 && |wrdataEn| == |wlevelEn|
    ensures OeRegisters(wrdataEn + [x], wlevelEn + [w], cwlSysLatency) ==
            OeRegistersNext(OutputEnable(Register(wrdataEn, cwlSysLatency + 3), cwlSysLatency), w)
    ensures Bl8Sel(wrdataEn + [x], cwlSysLatency) == Register(wrdataEn, cwlSysLatency + 3)[cwlSysLatency - 1]
  {
    assert (wrdataEn + [x])[..|wrdataEn|] == wrdataEn;
  }

  /**
   * What the DQ output buffers see: with write levelling off, a single
   * wrdata_en pulse in cycle p makes both oe_dq and oe_dqs high in exactly
   * the cycles p + cwl_sys_latency + 1 .. p + cwl_sys_latency + 4; with write
   * levelling on in the previous cycle, oe_dqs is high and oe_dq low.
   */
  lemma OeRegistersPulse(wrdataEn: seq<bool>, wlevelEn: seq<bool>, cwlSysLatency: nat, p: nat, t: nat)
    requires cwlSysLatency >= 1 && |wrdataEn| == |wlevelEn| && 1 <= t <= |wrdataEn|
    requires forall c :: 0 <= c < |wrdataEn| ==> wrdataEn[c] == (c == p)
    ensures wlevelEn[t - 1] ==> OeRegisters(wrdataEn[..t], wlevelEn[..t], cwlSysLatency) == (true, false)
    ensures !wlevelEn[t - 1] ==>
              var on := p + cwlSysLatency + 1 <= t <= p + cwlSysLatency + 4;
              OeRegisters(wrdataEn[..t], wlevelEn[..t], cwlSysLatency) == (on, on)
  {
    assert wrdataEn[..t][..t - 1] == wrdataEn[..t - 1];
    OutputEnablePulse(wrdataEn, cwlSysLatency, p, t - 1);
  }

  /** bl8_sel after a trace of wrdata_en: the registered tap cwl_sys_latency - 1. */
  function Bl8Sel(wrdataEn: seq<bool>, cwlSysLatency: nat): bool
    requires cwlSysLatency >= 1
  {
    if wrdataEn == [] then false
    else Register(wrdataEn[..|wrdataEn| - 1], cwlSysLatency + 3)[cwlSysLatency - 1]
  }

  /**
   * bl8_sel is wrdata_en from cwl_sys_latency + 1 cycles ago, so it is high
   * in the first cycle of the registered oe_dq plateau a pulse produces.
   */
  lemma Bl8SelLatency(wrdataEn: seq<bool>, cwlSysLatency: nat)
    requires cwlSysLatency >= 1
    ensures Bl8Sel(wrdataEn, cwlSysLatency) ==
            (|wrdataEn| >= cwlSysLatency + 1 && wrdataEn[|wrdataEn| - 1 - cwlSysLatency])
  {
    if wrdataEn != [] {
      RegisterTap(wrdataEn[..|wrdataEn| - 1], cwlSysLatency + 3, cwlSysLatency - 1);
    }
  }
}
