/**
 * The clocked part of ECP5DDRPHY: every register the PHY's sync statements
 * drive, updated together once per system clock edge from the old values.
 * NextRegisters is the sync block as a function of the old register values
 * and this cycle's inputs; the class Ecp5DdrPhy holds the registers and
 * applies it on each Step.
 */
module Ecp5Phy {
  import opened Ddr3Timing
  import opened PhyLogic

  /**
   * The CSR values sampled in one cycle: the wlevel_en and dly_sel storage
   * and the one-cycle write pulses (`.re`) of wlevel_strobe,
   * rdly_dq_bitslip_rst and rdly_dq_bitslip.
   */
  datatype CsrInputs = CsrInputs(wlevelEn: bool, wlevelStrobe: bool, dlySel: seq<bool>, bitslipRst: bool, bitslipInc: bool)

  /** The flow-control registers of the PHY. */
  datatype FlowRegisters = FlowRegisters(
    /** The read_latency - 1 n_rddata_en registers; index 0 samples rddata_en of phase rdphase. */
    rddataEnChain: seq<bool>,
    /** rddata_valid, which every DFI phase receives. */
    rddataValid: bool,
    /** last_wrdata_en, cwl_sys_latency + 3 bits; bit 0 samples wrdata_en of phase wrphase. */
    lastWrdataEn: seq<bool>,
    oeDq: bool,
    oeDqs: bool,
    bl8Sel: bool)

  /** The data-path registers of the PHY. */
  datatype DataRegisters = DataRegisters(
    /** dq_data_d of each DQ pin and dm_data_d of each byte lane: the previous cycle's packed data. */
    dqDataD: seq<seq<bool>>,
    dmDataD: seq<seq<bool>>,
    /** The BitSlip offset of each DQ pin. */
    bitslipValue: seq<nat>)

  /** What the PHY's construction guarantees of its settings and width. */
  predicate SupportedConfig(s: PhySettings, databits: nat)
  {
    databits % 8 == 0 && s.nphases == 2 &&
    0 <= s.rdphase < 2 && 0 <= s.wrphase < 2 &&
    s.readLatency >= 1 && s.writeLatency >= 1
  }

  /** Register widths, offsets in range, and one offset per byte lane. */
  predicate DataShaped(d: DataRegisters, databits: nat)
  {
    |d.dqDataD| == databits && (forall j :: 0 <= j < databits ==> |d.dqDataD[j]| == 8) &&
    |d.dmDataD| == databits / 8 && (forall i :: 0 <= i < databits / 8 ==> |d.dmDataD[i]| == 8) &&
    |d.bitslipValue| == databits &&
    (forall j :: 0 <= j < databits ==> d.bitslipValue[j] < BitslipOffsets) &&
    forall j, k :: 0 <= j < databits && 0 <= k < databits && j / 8 == k / 8 ==> d.bitslipValue[j] == d.bitslipValue[k]
  }

  /** The read-path registers are what the rddata_en and wlevel_en traces since reset make them. */
  predicate ReadMatches(f: FlowRegisters, s: PhySettings, rddataEn: seq<bool>, wlevelEn: seq<bool>)
    requires s.readLatency >= 1
  {
    |rddataEn| == |wlevelEn| &&
    f.rddataEnChain == Register(rddataEn, s.readLatency - 1) &&
    f.rddataValid == ReadValid(rddataEn, wlevelEn, s.readLatency - 1)
  }

  /** The write-path registers are what the wrdata_en and wlevel_en traces since reset make them. */
  predicate WriteMatches(f: FlowRegisters, s: PhySettings, wrdataEn: seq<bool>, wlevelEn: seq<bool>)
    requires s.writeLatency >= 1
  {
    |wrdataEn| == |wlevelEn| &&
    f.lastWrdataEn == Register(wrdataEn, s.writeLatency + 3) &&
    f.bl8Sel == Bl8Sel(wrdataEn, s.writeLatency) &&
    (f.oeDqs, f.oeDq) == OeRegisters(wrdataEn, wlevelEn, s.writeLatency)
  }

  /** The flow-control registers are what the enable traces since reset make them. */
  predicate MatchesTraces(f: FlowRegisters, s: PhySettings, rddataEn: seq<bool>, wrdataEn: seq<bool>, wlevelEn: seq<bool>)
    requires s.readLatency >= 1 && s.writeLatency >= 1
  {
    ReadMatches(f, s, rddataEn, wlevelEn) && WriteMatches(f, s, wrdataEn, wlevelEn)
  }

  /** The flow-control registers at reset: every Signal's reset value is 0. */
  function ResetFlow(s: PhySettings): (f: FlowRegisters)
    requires s.readLatency >= 1 && s.writeLatency >= 1
    ensures MatchesTraces(f, s, [], [], [])
  {
    FlowRegisters(Zeros(s.readLatency - 1), false, Zeros(s.writeLatency + 3), false, false, false)
  }

  /** The data-path registers at reset. */
  function ResetData(databits: nat): (d: DataRegisters)
    ensures DataShaped(d, databits)
    ensures forall j :: 0 <= j < databits ==> d.bitslipValue[j] == 0
  {
    DataRegisters(seq(databits, _ => Zeros(8)), seq(databits / 8, _ => Zeros(8)), seq(databits, _ => 0))
  }

  /**
   * The flow-control part of the sync block, from the old registers, the
   * rddata_en of phase rdphase, the wrdata_en of phase wrphase and wlevel_en.
   */
  function NextFlow(f: FlowRegisters, s: PhySettings, rdEn: bool, wrEn: bool, wlevelEn: bool): (n: FlowRegisters)
    requires s.readLatency >= 1 && s.writeLatency >= 1
    requires |f.rddataEnChain| == s.readLatency - 1 && |f.lastWrdataEn| == s.writeLatency + 3
    ensures |n.rddataEnChain| == s.readLatency - 1 && |n.lastWrdataEn| == s.writeLatency + 3
  {
    var oe := OeRegistersNext(OutputEnable(f.lastWrdataEn, s.writeLatency), wlevelEn);
    FlowRegisters(
      rddataEnChain := ShiftIn(f.rddataEnChain, rdEn),
      rddataValid := ReadValidNext(f.rddataEnChain, rdEn, wlevelEn),
      lastWrdataEn := ShiftIn(f.lastWrdataEn, wrEn),
      oeDq := oe.1,
      oeDqs := oe.0,
      bl8Sel := f.lastWrdataEn[s.writeLatency - 1])
  }

  /** One clock keeps the read-path registers in step with the traces extended by this cycle's enables. */
  lemma NextReadMatches(f: FlowRegisters, s: PhySettings, rdEn: bool, wrEn: bool, wlevelEn: bool,
                        rddataEnTrace: seq<bool>, wlevelEnTrace: seq<bool>)
    requires s.readLatency >= 1 && s.writeLatency >= 1
    requires |f.lastWrdataEn| == s.writeLatency + 3
    requires ReadMatches(f, s, rddataEnTrace, wlevelEnTrace)
    ensures ReadMatches(NextFlow(f, s, rdEn, wrEn, wlevelEn), s, rddataEnTrace + [rdEn], wlevelEnTrace + [wlevelEn])
  {
    RegisterStep(rddataEnTrace, rdEn, s.readLatency - 1);
    ReadValidStep(rddataEnTrace, wlevelEnTrace, s.readLatency - 1, rdEn, wlevelEn);
  }

  /** One clock keeps the write-path registers in step with the traces extended by this cycle's enables. */
  lemma NextWriteMatches(f: FlowRegisters, s: PhySettings, rdEn: bool, wrEn: bool, wlevelEn: bool,
                         wrdataEnTrace: seq<bool>, wlevelEnTrace: seq<bool>)
    requires s.readLatency >= 1 && s.writeLatency >= 1
    requires |f.rddataEnChain| == s.readLatency - 1
    requires WriteMatches(f, s, wrdataEnTrace, wlevelEnTrace)
    ensures WriteMatches(NextFlow(f, s, rdEn, wrEn, wlevelEn), s, wrdataEnTrace + [wrEn], wlevelEnTrace + [wlevelEn])
  {
    var n := NextFlow(f, s, rdEn, wrEn, wlevelEn);
    RegisterStep(wrdataEnTrace, wrEn, s.writeLatency + 3);
    assert n.lastWrdataEn == Register(wrdataEnTrace + [wrEn], s.writeLatency + 3);
    OeRegistersStep(wrdataEnTrace, wlevelEnTrace, s.writeLatency, wrEn, wlevelEn);
    assert n.bl8Sel == Bl8Sel(wrdataEnTrace + [wrEn], s.writeLatency);
  }

  /** The bitslip offsets of all DQ pins after one clock; pin j belongs to lane j / 8. */
  function BitslipStep(values: seq<nat>, databits: nat, dlySel: seq<bool>, rstPulse: bool, incPulse: bool): (r: seq<nat>)
    requires databits % 8 == 0 && |values| == databits && |dlySel| == databits / 8
    requires forall j :: 0 <= j < databits ==> values[j] < BitslipOffsets
    ensures |r| == databits
    ensures forall j :: 0 <= j < databits ==> r[j] == BitslipNext(values[j], dlySel[j / 8], rstPulse, incPulse)
  {
    seq(databits, j requires 0 <= j < databits => BitslipNext(values[j], dlySel[j / 8], rstPulse, incPulse))
  }

  /** The data-path part of the sync block: this cycle's packed write data and mask, and each pin's bitslip offset. */
  function NextData(d: DataRegisters, databits: nat, phases: seq<DfiPhase>, csr: CsrInputs): (n: DataRegisters)
    requires DataShaped(d, databits) && WellFormedPhases(phases, databits) && |csr.dlySel| == databits / 8
    ensures DataShaped(n, databits)
  {
    DataRegisters(
      dqDataD := seq(databits, j requires 0 <= j < databits => DqData(phases, databits, j)),
      dmDataD := seq(databits / 8, i requires 0 <= i < databits / 8 => DmData(phases, databits, i)),
      bitslipValue := BitslipStep(d.bitslipValue, databits, csr.dlySel, csr.bitslipRst, csr.bitslipInc))
  }

  /**
   * After one clock dq_data_d and dm_data_d hold this cycle's packed data, and a
   * pin's offset changes only when its lane is selected in dly_sel: a reset
   * pulse wins over an increment, and an increment advances it by one,
   * wrapping at 4.
   */
  lemma NextDataContents(d: DataRegisters, databits: nat, phases: seq<DfiPhase>, csr: CsrInputs)
    requires DataShaped(d, databits) && WellFormedPhases(phases, databits) && |csr.dlySel| == databits / 8
    ensures var n := NextData(d, databits, phases, csr);
            (forall j :: 0 <= j < databits ==> n.dqDataD[j] == DqData(phases, databits, j)) &&
            (forall i :: 0 <= i < databits / 8 ==> n.dmDataD[i] == DmData(phases, databits, i)) &&
            forall j :: 0 <= j < databits ==>
              var v, v' := d.bitslipValue[j], n.bitslipValue[j];
              (!csr.dlySel[j / 8] ==> v' == v) &&
              (csr.dlySel[j / 8] && csr.bitslipRst ==> v' == 0) &&
              (csr.dlySel[j / 8] && !csr.bitslipRst && csr.bitslipInc ==> v' == (v + 1) % 4) &&
              (csr.dlySel[j / 8] && !csr.bitslipRst && !csr.bitslipInc ==> v' == v)
  {
  }

  /** The PHY's registers agree with its configuration and with the enable traces since reset. */
  predicate Consistent(s: PhySettings, databits: nat, f: FlowRegisters, d: DataRegisters,
                       rddataEn: seq<bool>, wrdataEn: seq<bool>, wlevelEn: seq<bool>)
  {
    SupportedConfig(s, databits) && DataShaped(d, databits) && MatchesTraces(f, s, rddataEn, wrdataEn, wlevelEn)
  }

  /** One clock keeps the registers consistent with the traces extended by this cycle's enables. */
  lemma StepConsistent(s: PhySettings, databits: nat, f: FlowRegisters, d: DataRegisters,
                       rddataEn: seq<bool>, wrdataEn: seq<bool>, wlevelEn: seq<bool>,
                       phases: seq<DfiPhase>, csr: CsrInputs)
    requires Consistent(s, databits, f, d, rddataEn, wrdataEn, wlevelEn)
    requires WellFormedPhases(phases, databits) && |csr.dlySel| == databits / 8
    ensures Consistent(s, databits,
                       NextFlow(f, s, phases[s.rdphase].rddataEn, phases[s.wrphase].wrdataEn, csr.wlevelEn),
                       NextData(d, databits, phases, csr),
                       rddataEn + [phases[s.rdphase].rddataEn], wrdataEn + [phases[s.wrphase].wrdataEn],
                       wlevelEn + [csr.wlevelEn])
  {
    var rdEn, wrEn := phases[s.rdphase].rddataEn, phases[s.wrphase].wrdataEn;
    NextReadMatches(f, s, rdEn, wrEn, csr.wlevelEn, rddataEn, wlevelEn);
    NextWriteMatches(f, s, rdEn, wrEn, csr.wlevelEn, wrdataEn, wlevelEn);
  }

  class Ecp5DdrPhy {
    /** len(pads.dq), a whole number of byte lanes. */
    const databits: nat
    const settings: PhySettings

    /** The sync-driven Signals of the PHY, by the path they belong to. */
    var flow: FlowRegisters
    var data: DataRegisters

    /** The enables sampled since reset, oldest first. */
    ghost var rddataEnTrace: seq<bool>
    ghost var wrdataEnTrace: seq<bool>
    ghost var wlevelEnTrace: seq<bool>

    ghost predicate Valid()
      reads this
    {
      Consistent(settings, databits, flow, data, rddataEnTrace, wrdataEnTrace, wlevelEnTrace)
    }

    /** The PHY for a system clock of sysClkFreq Hz, with every register at its reset value. */
    constructor (sysClkFreq: Positive, databits: nat, nranks: nat)
      requires PhySettingsFor(sysClkFreq, databits, nranks).Success?
      requires databits % 8 == 0
      ensures Valid()
      ensures this.databits == databits && settings == PhySettingsFor(sysClkFreq, databits, nranks).value
      ensures flow == ResetFlow(settings) && data == ResetData(databits)
      ensures rddataEnTrace == [] && wrdataEnTrace == [] && wlevelEnTrace == []
    {
      this.databits := databits;
      settings := PhySettingsFor(sysClkFreq, databits, nranks).value;
      new;
      flow := ResetFlow(settings);
      data := ResetData(databits);
      rddataEnTrace, wrdataEnTrace, wlevelEnTrace := [], [], [];
    }

    /** One system clock edge: all sync assignments read the old registers and take effect together. */
    method Step(phases: seq<DfiPhase>, csr: CsrInputs)
      requires Valid() && WellFormedPhases(phases, databits) && |csr.dlySel| == databits / 8
      modifies this
      ensures Valid()
      ensures flow == NextFlow(old(flow), settings, phases[settings.rdphase].rddataEn,
                                 phases[settings.wrphase].wrdataEn, csr.wlevelEn)
      ensures data == NextData(old(data), databits, phases, csr)
      ensures rddataEnTrace == old(rddataEnTrace) + [phases[settings.rdphase].rddataEn]
      ensures wrdataEnTrace == old(wrdataEnTrace) + [phases[settings.wrphase].wrdataEn]
      ensures wlevelEnTrace == old(wlevelEnTrace) + [csr.wlevelEn]
    {
      var rdEn, wrEn := phases[settings.rdphase].rddataEn, phases[settings.wrphase].wrdataEn;
      var f := NextFlow(flow, settings, rdEn, wrEn, csr.wlevelEn);
      var d := NextData(data, databits, phases, csr);
      StepConsistent(settings, databits, flow, data, rddataEnTrace, wrdataEnTrace, wlevelEnTrace, phases, csr);
      flow, data := f, d;
      rddataEnTrace, wrdataEnTrace, wlevelEnTrace := rddataEnTrace + [rdEn], wrdataEnTrace + [wrEn], wlevelEnTrace + [csr.wlevelEn];
    }

    /** oe, the combinational output-enable plateau: wrdata_en was high within the window the four taps cover. */
    function OutputEnableNow(): (oe: bool)
      reads this
      requires Valid()
      ensures oe <==> exists c :: 0 <= c < |wrdataEnTrace| &&
                        |wrdataEnTrace| - settings.writeLatency - 3 <= c <= |wrdataEnTrace| - settings.writeLatency &&
                        wrdataEnTrace[c]
    {
      OutputEnableWindow(wrdataEnTrace, settings.writeLatency);
      OutputEnable(flow.lastWrdataEn, settings.writeLatency)
    }

    /** The rddata_valid of each DFI phase: all alike, rddata_en from read_latency cycles ago or wlevel_en from the last. */
    function RddataValidOfPhases(): (v: seq<bool>)
      reads this
      requires Valid()
      ensures |v| == DfiPhaseCount
      ensures forall p :: 0 <= p < |v| ==>
                v[p] == ((|rddataEnTrace| >= settings.readLatency && rddataEnTrace[|rddataEnTrace| - settings.readLatency]) ||
                         (|wlevelEnTrace| >= 1 && wlevelEnTrace[|wlevelEnTrace| - 1]))
    {
      ReadValidLatency(rddataEnTrace, wlevelEnTrace, settings.readLatency);
      var valid := flow.rddataValid;
      [valid, valid, valid, valid]
    }

    /** dq_data_muxed of DQ pin j: the four beats its serializer sends this cycle. */
    function DqOut(phases: seq<DfiPhase>, j: nat): (m: seq<bool>)
      reads this
      requires Valid() && WellFormedPhases(phases, databits) && j < databits
      ensures |m| == 4
      ensures forall s :: 0 <= s < 4 ==>
                m[s] == if flow.bl8Sel then data.dqDataD[j][4 + s] else phases[0].wrdata[Slot(s, databits, j)]
    {
      var cur := DqData(phases, databits, j);
      assert forall s :: 0 <= s < 4 ==> s / 4 == 0 && s % 4 == s;
      NibbleMux(flow.bl8Sel, cur, data.dqDataD[j])
    }

    /** dm_data_muxed of byte lane i. */
    function DmOut(phases: seq<DfiPhase>, i: nat): (m: seq<bool>)
      reads this
      requires Valid() && WellFormedPhases(phases, databits) && i < databits / 8
      ensures |m| == 4
      ensures forall s :: 0 <= s < 4 ==>
                m[s] == if flow.bl8Sel then data.dmDataD[i][4 + s] else phases[0].wrdataMask[Slot(s, databits / 8, i)]
    {
      var cur := DmData(phases, databits, i);
      assert forall s :: 0 <= s < 4 ==> s / 4 == 0 && s % 4 == s;
      NibbleMux(flow.bl8Sel, cur, data.dmDataD[i])
    }
  }
}
