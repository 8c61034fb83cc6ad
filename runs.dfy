/** Runs of several ticks, and what the interpreter does with the sample
    program of lib/cpu_test.py. */
module Runs {
  import opened Wrappers
  import opened Vectors
  import opened Isa

  /** Ticks with the given time steps and random draws, stopping at the
      first fault (the exception ends the caller's loop). */
  function Run(isns: seq<Instr>, o: Outcome, dts: seq<real>, draws: seq<Draw>): Outcome
    requires |dts| == |draws|
    decreases |dts|
  {
    if dts == [] || o.fault.Some? then o
    else Run(isns, TickSpec(isns, o.regs, o.body, dts[0], draws[0]), dts[1..], draws[1..])
  }

  /** Running two stretches back to back is one run over both. */
  lemma {:induction false} RunSplit(isns: seq<Instr>, o: Outcome, d1: seq<real>, w1: seq<Draw>, d2: seq<real>, w2: seq<Draw>)
    requires |d1| == |w1| && |d2| == |w2|
    ensures Run(isns, o, d1 + d2, w1 + w2) == Run(isns, Run(isns, o, d1, w1), d2, w2)
    decreases |d1|
  {
    if d1 == [] {
      assert d1 + d2 == d2 && w1 + w2 == w2;
    } else if o.fault.Some? {
      RunAfterFault(isns, o, d2, w2);
    } else {
      assert (d1 + d2)[1..] == d1[1..] + d2 && (w1 + w2)[1..] == w1[1..] + w2;
      RunSplit(isns, TickSpec(isns, o.regs, o.body, d1[0], w1[0]), d1[1..], w1[1..], d2, w2);
    }
  }

  /** A faulted run stays where it stopped. */
  lemma RunAfterFault(isns: seq<Instr>, o: Outcome, dts: seq<real>, draws: seq<Draw>)
    requires |dts| == |draws| && o.fault.Some?
    ensures Run(isns, o, dts, draws) == o
  {
  }

  /** The program of lib/cpu_test.py: pick a random acceleration in the
      box from (-5, -5) to (5, 5), apply it, then sleep 0.03. */
  const Sample: seq<Instr> := [
    Pair("const", OfVec(Vec(-5.0, -5.0))),
    Pair("const", OfVec(Vec(5.0, 5.0))),
    Bare("rand"),
    Bare("acc"),
    Pair("const", OfNum(0.03)),
    Bare("sleep")
  ]

  predicate UnitDraws(draws: seq<Draw>) {
    forall i :: 0 <= i < |draws| ==> 0.0 <= draws[i].u < 1.0 && 0.0 <= draws[i].w < 1.0
  }

  /** With the countdown run out, a tick of the sample program fetches
      and runs one entry. */
  lemma SampleFetches(r: Regs, b: Body, dt: real, draw: Draw)
    requires r.sleep <= 0.0
    ensures TickSpec(Sample, r, b, dt, draw)
         == ExecInstr(Sample, r.(sleep := 0.0, dt := dt + r.sleep, ip := NextIp(6, r.ip)),
                      Drift(b, dt + r.sleep), Sample[FetchIndex(6, r.ip)], draw)
  {
  }

  lemma ConstVecStep(isns: seq<Instr>, r: Regs, b: Body, v: Vec, draw: Draw)
    ensures ExecInstr(isns, r, b, Pair("const", OfVec(v)), draw)
         == Outcome(r.(arg := OfVec(v), stack := r.stack + [v]), b, None)
  {
    assert Dispatch("const") == Some(Const);
  }

  lemma ConstNumStep(isns: seq<Instr>, r: Regs, b: Body, s: real, draw: Draw)
    ensures ExecInstr(isns, r, b, Pair("const", OfNum(s)), draw)
         == Outcome(r.(arg := OfNum(s), stack := r.stack + [Scalar(s)]), b, None)
  {
    assert Dispatch("const") == Some(Const);
  }

  lemma RandStep(isns: seq<Instr>, r: Regs, b: Body, draw: Draw)
    ensures var p1 := PopOr(r.stack, NegOne); var p2 := PopOr(p1.1, PosOne);
      ExecInstr(isns, r, b, Bare("rand"), draw)
      == Outcome(r.(arg := OfVec(Zero), stack := p2.1 + [Random(p1.0, p2.0, draw.u, draw.w)]), b, None)
  {
    assert Dispatch("rand") == Some(Rand);
  }

  lemma AccStep(isns: seq<Instr>, r: Regs, b: Body, draw: Draw)
    ensures var p := PopOr(r.stack, Zero);
      ExecInstr(isns, r, b, Bare("acc"), draw) == Outcome(r.(arg := OfVec(Zero), stack := p.1), Pushed(b, p.0), None)
  {
    assert Dispatch("acc") == Some(Acc);
  }

  /** The stack after `done` ticks of a lap that started with `base`,
      where `a` is the vector the lap's `rand` draws. */
  function LapStack(done: nat, base: seq<Vec>, a: Vec): seq<Vec> {
    if done == 0 || done == 4 then base
    else if done == 1 then base + [Vec(-5.0, -5.0)]
    else if done == 2 then base + [Vec(-5.0, -5.0), Vec(5.0, 5.0)]
    else if done == 3 then base + [a]
    else if done == 5 then base + [Scalar(0.03)]
    else base + [Scalar(0.03), Vec(-5.0, -5.0)]
  }

  /** The host's velocity after `done` ticks of a lap that started at
      `v0`: the `acc` entry, the fourth, adds `a`. */
  function LapVel(done: nat, v0: Vec, a: Vec): Vec {
    if done <= 3 then v0 else Plus(v0, a)
  }

  /** What one tick of the sample program does from each pointer, once
      the countdown has run out: entry 5 is never run, and from pointer 5
      the pointer wraps and entry 0 runs again. */
  lemma SampleTick(r: Regs, b: Body, dt: real, draw: Draw, done: nat, base: seq<Vec>, v0: Vec, a: Vec)
    requires done < 6 && r.ip == done && r.sleep <= 0.0
    requires r.stack == LapStack(done, base, a) && b.vel == LapVel(done, v0, a)
    requires done == 2 ==> a == Random(Vec(5.0, 5.0), Vec(-5.0, -5.0), draw.u, draw.w)
    ensures var o := TickSpec(Sample, r, b, dt, draw);
      && o.fault.None? && o.regs.sleep == 0.0 && o.regs.ip == (done + 1) % 6
      && o.regs.stack == LapStack(done + 1, base, a)
      && o.body.vel == LapVel(done + 1, v0, a)
  {
    SampleFetches(r, b, dt, draw);
    var r1 := r.(sleep := 0.0, dt := dt + r.sleep, ip := NextIp(6, r.ip));
    var b1 := Drift(b, dt + r.sleep);
    if done == 0 || done == 5 {
      ConstVecStep(Sample, r1, b1, Vec(-5.0, -5.0), draw);
    } else if done == 1 {
      ConstVecStep(Sample, r1, b1, Vec(5.0, 5.0), draw);
    } else if done == 2 {
      RandStep(Sample, r1, b1, draw);
      var s := base + [Vec(-5.0, -5.0), Vec(5.0, 5.0)];
      assert s[..|s| - 1] == base + [Vec(-5.0, -5.0)];
      assert PopOr(s, NegOne) == (Vec(5.0, 5.0), base + [Vec(-5.0, -5.0)]);
      assert PopOr(base + [Vec(-5.0, -5.0)], PosOne) == (Vec(-5.0, -5.0), base);
    } else if done == 3 {
      AccStep(Sample, r1, b1, draw);
      assert (base + [a])[..|base|] == base;
      assert PopOr(base + [a], Zero) == (a, base);
    } else {
      ConstNumStep(Sample, r1, b1, 0.03, draw);
    }
  }

  /** The rest of a lap after `done` of its six ticks, from the state
      those ticks left: `base` is the stack the lap started with, `v0`
      the velocity, and `a` the vector the lap's `rand` draws. */
  lemma {:induction false} SampleRest(o: Outcome, dts: seq<real>, draws: seq<Draw>, done: nat,
                                      base: seq<Vec>, v0: Vec, a: Vec)
    requires done <= 6 && |dts| == 6 - done && |draws| == 6 - done
    requires o.fault.None? && o.regs.sleep <= 0.0 && (done > 0 ==> o.regs.sleep == 0.0)
    requires o.regs.ip == done % 6
    requires o.regs.stack == LapStack(done, base, a) && o.body.vel == LapVel(done, v0, a)
    requires done <= 2 ==> a == Random(Vec(5.0, 5.0), Vec(-5.0, -5.0), draws[2 - done].u, draws[2 - done].w)
    ensures var f := Run(Sample, o, dts, draws);
      f.fault.None? && f.regs.ip == 0 && f.regs.sleep == 0.0 &&
      f.regs.stack == base + [Scalar(0.03), Vec(-5.0, -5.0)] && f.body.vel == Plus(v0, a)
    decreases 6 - done
  {
    if done < 6 {
      SampleTick(o.regs, o.body, dts[0], draws[0], done, base, v0, a);
      var next := TickSpec(Sample, o.regs, o.body, dts[0], draws[0]);
      assert done + 1 <= 2 ==> draws[1..][2 - (done + 1)] == draws[2 - done];
      SampleRest(next, dts[1..], draws[1..], done + 1, base, v0, a);
    }
  }

  /** One lap of the sample program: six ticks from the first entry come
      back to it without ever reaching the trailing `sleep`, so the pushed
      0.03 and the second fetch of the first entry stay on the stack and
      the countdown stays at zero. The host's velocity changes by one
      random vector inside the box. */
  lemma SampleLap(r: Regs, b: Body, dts: seq<real>, draws: seq<Draw>)
    requires r.ip == 0 && r.sleep <= 0.0
    requires |dts| == 6 && |draws| == 6 && UnitDraws(draws)
    ensures var o := Run(Sample, Outcome(r, b, None), dts, draws);
      o.fault.None? && o.regs.ip == 0 && o.regs.sleep == 0.0 &&
      o.regs.stack == r.stack + [Scalar(0.03), Vec(-5.0, -5.0)] &&
      InBox(Minus(o.body.vel, b.vel), Vec(-5.0, -5.0), Vec(5.0, 5.0))
  {
    var a := Random(Vec(5.0, 5.0), Vec(-5.0, -5.0), draws[2].u, draws[2].w);
    SampleRest(Outcome(r, b, None), dts, draws, 0, r.stack, b.vel, a);
    RandomInBox(Vec(5.0, 5.0), Vec(-5.0, -5.0), draws[2].u, draws[2].w);
    PlusMinusInverse(a, b.vel);
    assert Minus(Plus(b.vel, a), b.vel) == a;
  }

  /** The sample program never faults and never sleeps, and each lap
      leaves two more vectors on the stack: after k laps the stack has
      grown by 2k. */
  lemma {:induction false} SampleLaps(r: Regs, b: Body, dts: seq<real>, draws: seq<Draw>, k: nat)
    requires r.ip == 0 && r.sleep == 0.0
    requires |dts| == 6 * k && |draws| == 6 * k && UnitDraws(draws)
    ensures var o := Run(Sample, Outcome(r, b, None), dts, draws);
      o.fault.None? && o.regs.ip == 0 && o.regs.sleep == 0.0 &&
      |o.regs.stack| == |r.stack| + 2 * k
    decreases k
  {
    if k == 0 {
      assert dts == [];
    } else {
      var d1, w1 := dts[..6], draws[..6];
      var d2, w2 := dts[6..], draws[6..];
      assert dts == d1 + d2 && draws == w1 + w2;
      RunSplit(Sample, Outcome(r, b, None), d1, w1, d2, w2);
      SampleLap(r, b, d1, w1);
      var o := Run(Sample, Outcome(r, b, None), d1, w1);
      assert Outcome(o.regs, o.body, None) == o;
      SampleLaps(o.regs, o.body, d2, w2, k - 1);
    }
  }
}
