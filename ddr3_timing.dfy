/**
 * The timing planner of the ECP5 DDR3 PHY: the CAS latency table lookup, the
 * conversion of memory-clock latencies into system-clock cycles and phases, and
 * the PHY settings derived from them.
 */
module Ddr3Timing {
  import opened Wrappers

  type Positive = n: nat | n > 0 witness 1

  /** A duration in seconds, held exactly as the fraction num/den. */
  datatype Period = Period(num: nat, den: Positive)

  /** One row of the speed table: a data rate in transfers per second and its (CL, CWL). */
  datatype SpeedGrade = SpeedGrade(rate: Positive, cl: nat, cwl: nat)

  /** Both are raised as ValueError; the two constructors tell the raise sites apart. */
  datatype PlanError = UnsupportedMemType | NoTimingSolution

  /** The DDR3 table, in insertion order: 800 MT/s with CL 6 and CWL 5. */
  const Ddr3Grades: seq<SpeedGrade> := [SpeedGrade(800_000_000, 6, 5)]

  /** The table test `tck >= 2/f`, compared exactly. */
  predicate MeetsGrade(tck: Period, g: SpeedGrade)
  {
    tck.num * g.rate >= 2 * tck.den
  }

  /** The scan of the table: the (CL, CWL) of the first row whose cycle time tck satisfies. */
  function FirstGrade(grades: seq<SpeedGrade>, tck: Period): (r: Result<(nat, nat), PlanError>)
    ensures r.Success? <==> exists i :: 0 <= i < |grades| && MeetsGrade(tck, grades[i])
    ensures r.Failure? ==> r.error == NoTimingSolution
    ensures r.Success? ==> exists i :: 0 <= i < |grades| && MeetsGrade(tck, grades[i]) &&
                                        r.value == (grades[i].cl, grades[i].cwl) &&
                                        forall j :: 0 <= j < i ==> !MeetsGrade(tck, grades[j])
  {
    if grades == [] then Failure(NoTimingSolution)
    else if MeetsGrade(tck, grades[0]) then Success((grades[0].cl, grades[0].cwl))
    else
      var r := FirstGrade(grades[1..], tck);
      assert forall i :: 1 <= i < |grades| ==> grades[i] == grades[1..][i - 1];
      r
  }

  /** get_cl_cw: only "DDR3" is known, and its only row needs tck >= 2/800e6 s. */
  function GetClCw(memtype: string, tck: Period): (r: Result<(nat, nat), PlanError>)
    ensures memtype != "DDR3" ==> r == Failure(UnsupportedMemType)
    ensures memtype == "DDR3" ==>
              r == if tck.num * 800_000_000 >= 2 * tck.den then Success((6, 5))
                   else Failure(NoTimingSolution)
  {
    if memtype == "DDR3" then
      assert Ddr3Grades[0] == SpeedGrade(800_000_000, 6, 5);
      FirstGrade(Ddr3Grades, tck)
    else Failure(UnsupportedMemType)
  }

  /** get_sys_latency: math.ceil(cas_latency / nphases), the least L with L * nphases >= cas_latency. */
  function SysLatency(nphases: Positive, casLatency: nat): (l: nat)
    ensures l * nphases >= casLatency
    ensures (l - 1) * nphases < casLatency
  {
    var q := casLatency / nphases;
    assert casLatency == q * nphases + casLatency % nphases;
    if casLatency % nphases == 0 then q else q + 1
  }

  /** The two bounds of SysLatency determine it: it is exactly the ceiling. */
  lemma SysLatencyUnique(nphases: Positive, casLatency: nat, l: int)
    requires l * nphases >= casLatency
    requires (l - 1) * nphases < casLatency
    ensures l == SysLatency(nphases, casLatency)
  {
    var c := SysLatency(nphases, casLatency);
    if l > c {
      MulLe(c, l - 1, nphases);
    } else if l < c {
      MulLe(l, c - 1, nphases);
    }
  }

  lemma MulLe(a: int, b: int, n: nat)
    requires a <= b
    ensures a * n <= b * n
    decreases b - a
  {
    if a < b {
      MulLe(a, b - 1, n);
      assert b * n == (b - 1) * n + n;
    }
  }

  /** The only multiple of n strictly between -n and n is 0. */
  lemma SmallMultiple(t: int, n: Positive)
    requires 0 - n < t * n < n
    ensures t == 0
  {
    if t >= 1 {
      MulLe(1, t, n);
    } else if t <= -1 {
      MulLe(t, -1, n);
    }
  }

  /** x % n for x in [-n, n): x itself, or x + n when x is negative. */
  lemma ModSmall(x: int, n: Positive)
    requires 0 - n <= x < n
    ensures x % n == if x < 0 then x + n else x
  {
    var q, r := x / n, x % n;
    assert x == q * n + r;
    if x >= 0 {
      SmallMultiple(q, n);
    } else {
      assert (q + 1) * n == q * n + n;
      SmallMultiple(q + 1, n);
    }
  }

  /** A multiple of n leaves no remainder. */
  lemma ModMultiple(t: int, n: Positive)
    ensures (t * n) % n == 0
  {
    var m := t * n;
    var q, r := m / n, m % n;
    assert m == q * n + r;
    assert (t - q) * n == r;
    SmallMultiple(t - q, n);
  }

  /**
   * get_sys_phases: the data phase is how far the latency in system cycles
   * overshoots the memory latency, and the command phase is the phase before
   * it, cyclically (Python's % is non-negative for a positive divisor, as is
   * Dafny's). Returns (cmd_phase, dat_phase).
   */
  function SysPhases(nphases: Positive, sysLatency: int, casLatency: int): (p: (int, int))
    ensures 0 <= p.0 < nphases
    ensures (p.1 - 1 - p.0) % nphases == 0
    ensures p.1 + casLatency == sysLatency * nphases
  {
    var datPhase := sysLatency * nphases - casLatency;
    var cmdPhase := (datPhase - 1) % nphases;
    var q := (datPhase - 1) / nphases;
    assert datPhase - 1 == q * nphases + cmdPhase;
    ModMultiple(q, nphases);
    (cmdPhase, datPhase)
  }

  /**
   * With the system latency the planner computes, the data phase lies in
   * [0, nphases) and the command phase is the data phase's predecessor,
   * wrapping around to the last phase.
   */
  lemma PhasesOfSysLatency(nphases: Positive, casLatency: nat)
    ensures var p := SysPhases(nphases, SysLatency(nphases, casLatency), casLatency);
            0 <= p.1 < nphases &&
            p.0 == if p.1 == 0 then nphases - 1 else p.1 - 1
  {
    var l := SysLatency(nphases, casLatency);
    var p := SysPhases(nphases, l, casLatency);
    assert p.1 == l * nphases - casLatency;
    assert (l - 1) * nphases == l * nphases - nphases;
    ModSmall(p.1 - 1, nphases);
  }

  function Pow2(k: nat): Positive
  {
    if k == 0 then 1 else 2 * Pow2(k - 1)
  }

  /** litex's log2_int, for the arguments the PHY passes: floor(log2(n)). */
  function Log2Int(n: Positive): (k: nat)
    ensures Pow2(k) <= n < 2 * Pow2(k)
  {
    if n == 1 then 0 else 1 + Log2Int(n / 2)
  }

  /** The PhySettings record the PHY publishes to the memory controller. */
  datatype PhySettings = PhySettings(
    memtype: string,
    dfiDatabits: nat,
    nranks: nat,
    nphases: Positive,
    rdphase: int,
    wrphase: int,
    rdcmdphase: int,
    wrcmdphase: int,
    cl: nat,
    cwl: nat,
    readLatency: int,
    writeLatency: nat)

  /** The PHY is built for a 1:2 frequency ratio. */
  const NPhases: Positive := 2

  /** tck = 2 / (2 * 2 * sys_clk_freq): one memory clock period, for a Hz system clock. */
  function PhyTck(sysClkFreq: Positive): Period
  {
    Period(2, 2 * 2 * sysClkFreq)
  }

  /** The settings computed in the PHY's constructor, or the ValueError it raises. */
  function PhySettingsFor(sysClkFreq: Positive, databits: nat, nranks: nat): (r: Result<PhySettings, PlanError>)
    ensures r.Success? <==> sysClkFreq <= 200_000_000
    ensures r.Failure? ==> r.error == NoTimingSolution
    ensures r.Success? ==>
              r.value.memtype == "DDR3" &&
              r.value.cl == 6 && r.value.cwl == 5 && r.value.nphases == 2 &&
              r.value.rdphase == 0 && r.value.rdcmdphase == 1 &&
              r.value.wrphase == 1 && r.value.wrcmdphase == 0 &&
              r.value.readLatency == 2 + 3 + 2 + 1 + 3 && r.value.writeLatency == 3 &&
              r.value.dfiDatabits == 4 * databits && r.value.nranks == nranks
  {
    match GetClCw("DDR3", PhyTck(sysClkFreq))
    case Failure(e) => Failure(e)
    case Success((cl, cwl)) =>
      var clSysLatency := SysLatency(NPhases, cl);
      var cwlSysLatency := SysLatency(NPhases, cwl);
      var (rdcmdphase, rdphase) := SysPhases(NPhases, clSysLatency, cl);
      var (wrcmdphase, wrphase) := SysPhases(NPhases, cwlSysLatency, cwl);
      assert Log2Int(4 / NPhases) == 1;
      Success(PhySettings(
        memtype := "DDR3",
        dfiDatabits := 4 * databits,
        nranks := nranks,
        nphases := NPhases,
        rdphase := rdphase,
        wrphase := wrphase,
        rdcmdphase := rdcmdphase,
        wrcmdphase := wrcmdphase,
        cl := cl,
        cwl := cwl,
        readLatency := 2 + clSysLatency + 2 + Log2Int(4 / NPhases) + 3,
        writeLatency := cwlSysLatency))
  }

  /** The system clock the PHY is built for when none is given: 100 MHz. */
  const DefaultSysClkFreq: Positive := 100_000_000

  /** The default clock is supported, and its settings are those of every supported clock. */
  lemma DefaultClockSupported(databits: nat, nranks: nat)
    ensures PhySettingsFor(DefaultSysClkFreq, databits, nranks).Success?
    ensures PhySettingsFor(DefaultSysClkFreq, databits, nranks) == PhySettingsFor(200_000_000, databits, nranks)
  {
  }

  /** Whatever clock the PHY accepts, its phases are valid phase numbers and its latencies positive. */
  lemma PhySettingsInRange(sysClkFreq: Positive, databits: nat, nranks: nat)
    requires PhySettingsFor(sysClkFreq, databits, nranks).Success?
    ensures var s := PhySettingsFor(sysClkFreq, databits, nranks).value;
            0 <= s.rdphase < s.nphases && 0 <= s.wrphase < s.nphases &&
            0 <= s.rdcmdphase < s.nphases && 0 <= s.wrcmdphase < s.nphases &&
            s.readLatency >= 1 && s.writeLatency >= 1
  {
  }
}
