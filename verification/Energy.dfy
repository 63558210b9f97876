/** The package energy counters: 32-bit registers that wrap, sampled once per package in a
    loop over the cores, and the number of wraps seen. */
module Energy {
  const WRAP: nat := 0x1_0000_0000

  type Counter = n: nat | n < 0x1_0000_0000

  /** The package fields of `per_cpu_data`. */
  datatype Package = Package(last: Counter, current: Counter, init: Counter, final: Counter, overflow: Counter)

  /** What `MSR_PKG_ENERGY_STATUS` shows when the package has used `energy` units. */
  function Register(energy: nat): Counter {
    energy % 0x1_0000_0000
  }

  function Begin(p: Package, energy: nat): Package {
    Package(0, Register(energy), Register(energy), p.final, 0)
  }

  function Sample(p: Package, energy: nat): Package {
    var now := Register(energy);
    p.(last := p.current, current := now,
       overflow := if p.current > now then (p.overflow + 1) % 0x1_0000_0000 else p.overflow)
  }

  function Finish(p: Package, energy: nat): Package {
    Sample(p, energy).(final := Register(energy))
  }

  /** The difference `show_result` takes, in 32 bits. */
  function Reported(p: Package): Counter {
    (p.final - p.init) % 0x1_0000_0000
  }

  // ----- the law ------------------------------------------------------------------

  /** The counters tell the energy used since `start`, apart from the width of the overflow
      count itself. */
  ghost predicate Tracks(p: Package, start: nat, now: nat) {
    && start <= now && p.init == Register(start) && p.current == Register(now)
    && p.overflow == (now / WRAP - start / WRAP) % WRAP
  }

  lemma Halves(n: nat)
    ensures n == WRAP * (n / WRAP) + n % WRAP
  {
  }

  /** The energy since the start is the overflow count in units of 2^32 plus the difference
      of the registers, exactly as long as the register has wrapped less than 2^32 times. */
  lemma EnergyCounted(p: Package, start: nat, now: nat)
    requires Tracks(p, start, now)
    ensures WRAP * p.overflow + p.current - p.init == now - start <==> now / WRAP - start / WRAP < WRAP
  {
    Halves(start);
    Halves(now);
    var d := now / WRAP - start / WRAP;
    Ordered(start, now);
    if d < WRAP {
      assert d % WRAP == d;
    }
  }

  lemma Ordered(a: nat, b: nat)
    requires a <= b
    ensures a / WRAP <= b / WRAP
  {
    Halves(a);
    Halves(b);
  }

  /** How many wraps an advance makes, and how many a sample can see. */
  lemma Wraps(now: nat, later: nat)
    requires now <= later
    ensures var d := later / WRAP - now / WRAP;
      && (later - now < WRAP ==> d == if Register(now) > Register(later) then 1 else 0)
      && (later - now >= WRAP ==> d > if Register(now) > Register(later) then 1 else 0)
      && (later - now < WRAP * (WRAP - 1) ==> 0 <= d < WRAP)
  {
    Halves(now);
    Halves(later);
  }

  lemma AddWrapped(a: int, b: int)
    ensures (a % WRAP + b) % WRAP == (a + b) % WRAP
  {
    assert a == WRAP * (a / WRAP) + a % WRAP;
    assert a + b == WRAP * (a / WRAP) + (a % WRAP + b);
    Shifted(a / WRAP, a % WRAP + b);
  }

  lemma Shifted(k: int, x: int)
    ensures (WRAP * k + x) % WRAP == x % WRAP
  {
    var q := x / WRAP;
    assert WRAP * k + x == WRAP * (k + q) + x % WRAP;
  }

  /** A sample keeps the law exactly when the counter advanced by less than 2^32, apart from
      multiples of 2^64, which neither field can hold. */
  lemma SampleTracks(p: Package, start: nat, now: nat, later: nat)
    requires Tracks(p, start, now) && now <= later
    ensures Tracks(Sample(p, later), start, later) <==> (later - now) % (WRAP * WRAP) < WRAP
  {
    var seen := if p.current > Register(later) then 1 else 0;
    var d, before := later / WRAP - now / WRAP, now / WRAP - start / WRAP;
    Halves(now);
    Halves(later);
    AddWrapped(before, seen);
    assert Sample(p, later).overflow == (before + seen) % WRAP;
    assert later / WRAP - start / WRAP == before + d;
    SameResidue(before + seen, before + d);
    Leap(d, Register(later) - Register(now), seen);
    assert later - now == WRAP * d + (Register(later) - Register(now));
  }

  lemma SmallStep(x: int)
    requires 0 <= x < WRAP
    ensures x % (WRAP * WRAP) == x
  {
  }

  /** An advance of `d` wraps and `s` counts, of which the sample sees `seen` wraps. */
  lemma Leap(d: int, s: int, seen: int)
    requires 0 < s + WRAP && s < WRAP && seen == if s < 0 then 1 else 0
    ensures (WRAP * d + s) % (WRAP * WRAP) < WRAP <==> (d - seen) % WRAP == 0
  {
    var k, m, t := (d - seen) / WRAP, (d - seen) % WRAP, WRAP * seen + s;
    assert WRAP * d + s == WRAP * WRAP * k + (WRAP * m + t);
    SquareShifted(k, WRAP * m + t);
  }

  lemma SquareShifted(k: int, x: int)
    requires 0 <= x < WRAP * WRAP
    ensures (WRAP * WRAP * k + x) % (WRAP * WRAP) == x
  {
  }

  lemma SameResidue(a: int, b: int)
    ensures a % WRAP == b % WRAP <==> (b - a) % WRAP == 0
  {
    assert b - a == WRAP * (b / WRAP - a / WRAP) + (b % WRAP - a % WRAP);
  }

  // ----- any number of samples ------------------------------------------------------

  /** Readings that never fall behind and never leap by 2^32 or more. */
  ghost predicate Steady(start: nat, es: seq<nat>)
    decreases |es|
  {
    es != [] ==> start <= es[0] < start + WRAP && Steady(es[0], es[1..])
  }

  function Samples(p: Package, es: seq<nat>): Package
    decreases |es|
  {
    if es == [] then p else Samples(Sample(p, es[0]), es[1..])
  }

  function Last(start: nat, es: seq<nat>): nat {
    if es == [] then start else es[|es| - 1]
  }

  lemma {:induction false} SamplesTrack(p: Package, start: nat, now: nat, es: seq<nat>)
    requires Tracks(p, start, now) && Steady(now, es)
    ensures Tracks(Samples(p, es), start, Last(now, es))
    decreases |es|
  {
    if es != [] {
      SmallStep(es[0] - now);
      SampleTracks(p, start, now, es[0]);
      SamplesTrack(Sample(p, es[0]), start, es[0], es[1..]);
    }
  }

  /** From the start through any number of samples to the final one: the fields hold the
      energy used, and the reported difference is its low 32 bits. */
  lemma EnergyLaw(p: Package, start: nat, es: seq<nat>, end: nat)
    requires Steady(start, es) && Last(start, es) <= end < Last(start, es) + WRAP
    ensures var r := Finish(Samples(Begin(p, start), es), end);
      && Tracks(r, start, end) && r.final == r.current && Reported(r) == (end - start) % WRAP
      && (end - start < WRAP * (WRAP - 1) ==> WRAP * r.overflow + r.final - r.init == end - start)
  {
    SamplesTrack(Begin(p, start), start, start, es);
    var q := Samples(Begin(p, start), es);
    SmallStep(end - Last(start, es));
    SampleTracks(q, start, Last(start, es), end);
    var r := Finish(q, end);
    assert Tracks(r, start, end);
    Halves(start);
    Halves(end);
    assert end - start == WRAP * (end / WRAP - start / WRAP) + (r.final - r.init);
    Shifted(end / WRAP - start / WRAP, r.final - r.init);
    if end - start < WRAP * (WRAP - 1) {
      Wraps(start, end);
      EnergyCounted(r, start, end);
    }
  }

  // ----- the loops over the cores -----------------------------------------------------

  /** `struct sys_data` on a host with two packages. */
  class SysData {
    const ncore: nat
    var cpuData: array<Package>

    ghost predicate Valid()
      reads this
    {
      cpuData.Length == 2 && ncore >= 1
    }

    constructor (ncore: nat)
      requires ncore >= 1
      ensures Valid() && fresh(cpuData) && this.ncore == ncore
    {
      this.ncore := ncore;
      cpuData := new Package[2](_ => Package(0, 0, 0, 0, 0));
    }

    /** The package a core is taken to belong to. The core in the middle is one of package 1
        only if the number of cores is even. */
    function CpuId(core: nat): (cpuid: nat)
      requires ncore > 0
      ensures core == 0 ==> cpuid == 0
      ensures core == ncore / 2 ==> (cpuid == if ncore % 2 == 0 then 1 else 0)
    {
      core * 2 / ncore
    }

    /** `init_msr_data`; `energy` is what is read on core 0 and on the core in the middle.
        Package 1 is read exactly if the number of cores is even; if not, package 0 is read a
        second time. */
    method InitMsrData(energy: seq<nat>)
      requires Valid() && |energy| == 2
      modifies cpuData
      ensures ncore % 2 == 0 ==>
        cpuData[0] == Begin(old(cpuData[0]), energy[0]) && cpuData[1] == Begin(old(cpuData[1]), energy[1])
      ensures ncore % 2 == 1 ==> cpuData[1] == old(cpuData[1])
      ensures ncore == 1 ==> cpuData[0] == Begin(old(cpuData[0]), energy[0])
      ensures ncore % 2 == 1 && ncore > 1 ==> cpuData[0] == Begin(Begin(old(cpuData[0]), energy[0]), energy[1])
    {
      for core := 0 to ncore
        invariant core == 0 ==> cpuData[0] == old(cpuData[0])
        invariant 0 < core && (core <= ncore / 2 || ncore % 2 == 0 || ncore == 1) ==>
          cpuData[0] == Begin(old(cpuData[0]), energy[0])
        invariant ncore / 2 < core && ncore % 2 == 1 && ncore > 1 ==>
          cpuData[0] == Begin(Begin(old(cpuData[0]), energy[0]), energy[1])
        invariant cpuData[1] ==
          if core > ncore / 2 && ncore % 2 == 0 then Begin(old(cpuData[1]), energy[1]) else old(cpuData[1])
      {
        if core == 0 || core == ncore / 2 {
          var cpuid := CpuId(core);
          var p := cpuData[cpuid].(overflow := 0, current := 0);
          p := p.(last := p.current);
          p := p.(current := Register(energy[if core == 0 then 0 else 1]));
          cpuData[cpuid] := p.(init := p.current);
        }
      }
    }

    /** `read_msr_energy` */
    method ReadMsrEnergy(energy: seq<nat>)
      requires Valid() && |energy| == 2
      modifies cpuData
      ensures ncore % 2 == 0 ==>
        cpuData[0] == Sample(old(cpuData[0]), energy[0]) && cpuData[1] == Sample(old(cpuData[1]), energy[1])
      ensures ncore % 2 == 1 ==> cpuData[1] == old(cpuData[1])
      ensures ncore == 1 ==> cpuData[0] == Sample(old(cpuData[0]), energy[0])
      ensures ncore % 2 == 1 && ncore > 1 ==> cpuData[0] == Sample(Sample(old(cpuData[0]), energy[0]), energy[1])
    {
      for core := 0 to ncore
        invariant core == 0 ==> cpuData[0] == old(cpuData[0])
        invariant 0 < core && (core <= ncore / 2 || ncore % 2 == 0 || ncore == 1) ==>
          cpuData[0] == Sample(old(cpuData[0]), energy[0])
        invariant ncore / 2 < core && ncore % 2 == 1 && ncore > 1 ==>
          cpuData[0] == Sample(Sample(old(cpuData[0]), energy[0]), energy[1])
        invariant cpuData[1] ==
          if core > ncore / 2 && ncore % 2 == 0 then Sample(old(cpuData[1]), energy[1]) else old(cpuData[1])
      {
        if core == 0 || core == ncore / 2 {
          var cpuid := CpuId(core);
          SampleAt(cpuid, energy[if core == 0 then 0 else 1]);
        }
      }
    }

    method SampleAt(cpuid: nat, energy: nat)
      requires Valid() && cpuid < 2
      modifies cpuData
      ensures cpuData[cpuid] == Sample(old(cpuData[cpuid]), energy) && cpuData[1 - cpuid] == old(cpuData[1 - cpuid])
    {
      var p := cpuData[cpuid];
      p := p.(last := p.current);
      p := p.(current := Register(energy));
      if p.last > p.current {
        p := p.(overflow := (p.overflow + 1) % 0x1_0000_0000);
      }
      cpuData[cpuid] := p;
    }

    /** `final_msr_energy` */
    method FinalMsrEnergy(energy: seq<nat>)
      requires Valid() && |energy| == 2
      modifies cpuData
      ensures ncore % 2 == 0 ==>
        cpuData[0] == Finish(old(cpuData[0]), energy[0]) && cpuData[1] == Finish(old(cpuData[1]), energy[1])
      ensures ncore % 2 == 1 ==> cpuData[1] == old(cpuData[1])
      ensures ncore == 1 ==> cpuData[0] == Finish(old(cpuData[0]), energy[0])
      ensures ncore % 2 == 1 && ncore > 1 ==> cpuData[0] == Finish(Finish(old(cpuData[0]), energy[0]), energy[1])
    {
      for core := 0 to ncore
        invariant core == 0 ==> cpuData[0] == old(cpuData[0])
        invariant 0 < core && (core <= ncore / 2 || ncore % 2 == 0 || ncore == 1) ==>
          cpuData[0] == Finish(old(cpuData[0]), energy[0])
        invariant ncore / 2 < core && ncore % 2 == 1 && ncore > 1 ==>
          cpuData[0] == Finish(Finish(old(cpuData[0]), energy[0]), energy[1])
        invariant cpuData[1] ==
          if core > ncore / 2 && ncore % 2 == 0 then Finish(old(cpuData[1]), energy[1]) else old(cpuData[1])
      {
        if core == 0 || core == ncore / 2 {
          var cpuid := CpuId(core);
          SampleAt(cpuid, energy[if core == 0 then 0 else 1]);
          cpuData[cpuid] := cpuData[cpuid].(final := cpuData[cpuid].current);
        }
      }
    }
  }
}
