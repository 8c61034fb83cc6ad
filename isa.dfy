/** The semantics of the bytecode interpreter of lib/cpu.py, as functions
    on values: its registers, the microcode (`sleep_`, `isn_`, `jmp_`,
    `top_`, `pop_`, `pop2_`), every instruction, and one `tick`. The
    imperative CPU in module Machine is proved against these. */
module Isa {
  import opened Wrappers
  import opened Vectors

  /** Tuple lengths that `exec` cannot unpack into `(name, operand)`. */
  type Arity = n: nat | n != 2

  /** A program entry: a bare instruction name, a `(name, operand)` pair,
      or a tuple of some other length. */
  datatype Instr = Bare(name: string) | Pair(name: string, arg: Operand) | Tuple(arity: Arity)

  /** `Program`: the instruction list, never changed once built. */
  datatype Program = Program(isns: seq<Instr>)

  /** The instruction methods of the CPU class. */
  datatype Opcode = Pop | Dup | Const | Rand | Pos | Vel | Acc | Inv | Add | Sub | Mul | Div | Sleep | Br | Jmp

  function Name(op: Opcode): string {
    match op
    case Pop => "pop"
    case Dup => "dup"
    case Const => "const"
    case Rand => "rand"
    case Pos => "pos"
    case Vel => "vel"
    case Acc => "acc"
    case Inv => "inv"
    case Add => "add"
    case Sub => "sub"
    case Mul => "mul"
    case Div => "div"
    case Sleep => "sleep"
    case Br => "br"
    case Jmp => "jmp"
  }

  /** `getattr(self, isn)` restricted to the instruction methods: `None`
      is the AttributeError for any other name. */
  function Dispatch(name: string): (r: Option<Opcode>)
    ensures r.Some? ==> Name(r.value) == name
  {
    if name == "pop" then Some(Pop)
    else if name == "dup" then Some(Dup)
    else if name == "const" then Some(Const)
    else if name == "rand" then Some(Rand)
    else if name == "pos" then Some(Pos)
    else if name == "vel" then Some(Vel)
    else if name == "acc" then Some(Acc)
    else if name == "inv" then Some(Inv)
    else if name == "add" then Some(Add)
    else if name == "sub" then Some(Sub)
    else if name == "mul" then Some(Mul)
    else if name == "div" then Some(Div)
    else if name == "sleep" then Some(Sleep)
    else if name == "br" then Some(Br)
    else if name == "jmp" then Some(Jmp)
    else None
  }

  /** Every instruction method is reached by its own name. */
  lemma NameDispatches(op: Opcode)
    ensures Dispatch(Name(op)) == Some(op)
  {
    match op
    case Pop => case Dup => case Const => case Rand => case Pos => case Vel =>
    case Acc => case Inv => case Add => case Sub => case Mul => case Div =>
    case Sleep => case Br => case Jmp =>
  }

  /** A name fails at dispatch exactly when no instruction has it. */
  lemma DispatchByName(name: string)
    ensures Dispatch(name).None? <==> forall o: Opcode :: Name(o) != name
  {
    forall o: Opcode | Name(o) == name
      ensures Dispatch(name) == Some(o)
    {
      NameDispatches(o);
    }
  }

  // ----- State -----

  /** The CPU's own registers: `_ip`, `_stack`, `_sleep`, `_arg` and the
      `dt` last handed to the host. */
  datatype Regs = Regs(ip: nat, stack: seq<Vec>, sleep: real, arg: Operand, dt: real)

  /** The registers of a new CPU: the stack starts with one zero vector. */
  const Boot: Regs := Regs(0, [Zero], 0.0, OfVec(Zero), 0.0)

  /** What the CPU sees of its host (an Enemy): position and velocity. */
  datatype Body = Body(pos: Vec, vel: Vec)

  /** The host's `cpu_tick(dt)`: move by velocity times `dt`. */
  function Drift(b: Body, dt: real): Body {
    b.(pos := Plus(b.pos, Times(b.vel, Scalar(dt))))
  }

  /** The host's `acc(a)`: add `a` to the velocity. */
  function Pushed(b: Body, a: Vec): Body {
    b.(vel := Plus(b.vel, a))
  }

  /** The exceptions a tick can raise. */
  datatype Fault =
    | NoSuchInstruction(name: string)   // AttributeError from getattr
    | CannotUnpack(arity: nat)          // ValueError unpacking a tuple entry
    | NotAVector(arg: Operand)          // TypeError from coerce on a long tuple
    | NoInstructions                    // IndexError fetching from an empty program
    | ListHasNoPush                     // AttributeError in `dup`
    | PopNeedsDefault                   // TypeError in `br`
    | ModuloByZero                      // ValueError from math.fmod in `jmp_` on an empty program

  /** The state after a step, and the exception it raised, if any. */
  datatype Outcome = Outcome(regs: Regs, body: Body, fault: Option<Fault>)

  /** The two values `Random.random()` yields during one `rand`. */
  datatype Draw = Draw(u: real, w: real)

  // ----- Microcode -----

  datatype Gate = Gate(sleep: real, dt: real, fetch: bool)

  /** `sleep_(dt)`: a positive countdown is reduced by `dt`; once it is
      zero or below it is cleared, the remainder is added to `dt`, and an
      instruction may be fetched. */
  function SleepGate(s: real, dt: real): (g: Gate)
    ensures g.sleep >= 0.0
    ensures g.fetch <==> !(s > 0.0 && s > dt)
    ensures !g.fetch ==> g.sleep == s - dt && g.dt == dt
    ensures g.fetch ==> g.sleep == 0.0 && g.dt == (if s > 0.0 then s else dt + s)
    ensures g.dt + g.sleep == (if s > 0.0 then s else dt + s)
  {
    var left := if s > 0.0 then s - dt else s;
    if left <= 0.0 then Gate(0.0, dt + left, true) else Gate(left, dt, false)
  }

  /** True when none of the next `n` ticks of length `dt`, starting from
      countdown `s`, lets an instruction through. */
  function AsleepFor(s: real, dt: real, n: nat): bool
    decreases n
  {
    n == 0 || (var g := SleepGate(s, dt); !g.fetch && AsleepFor(g.sleep, dt, n - 1))
  }

  /** With a fixed positive `dt`, a countdown `s` keeps the CPU from
      fetching for exactly the ticks `k` with `s > k * dt`. */
  lemma {:induction false} AsleepExactly(s: real, dt: real, n: nat)
    requires dt > 0.0 && n >= 1
    ensures AsleepFor(s, dt, n) <==> s > (n as real) * dt
    decreases n
  {
    var g := SleepGate(s, dt);
    if n > 1 {
      AsleepExactly(s - dt, dt, n - 1);
      assert (n as real) * dt == ((n - 1) as real) * dt + dt;
      if !g.fetch {
        assert g.sleep == s - dt;
      }
    }
  }

  function FetchIndex(len: nat, ip: nat): nat {
    if ip + 1 >= len then 0 else ip
  }

  function NextIp(len: nat, ip: nat): nat {
    if ip + 1 >= len then 0 else ip + 1
  }

  datatype Fetched = Fetched(ip: nat, isn: Option<Instr>)

  /** `isn_()`: returns entry `ip` and moves to `ip + 1`, except that when
      `ip + 1` reaches the length both the pointer and the returned entry
      are 0. An empty program raises IndexError (`None`). */
  function Fetch(isns: seq<Instr>, ip: nat): (f: Fetched)
    ensures f.isn.None? <==> |isns| == 0
    ensures |isns| > 0 ==> f.ip < |isns|
    ensures |isns| == 0 ==> f.ip == 0
    ensures ip + 1 < |isns| ==> f == Fetched(ip + 1, Some(isns[ip]))
    ensures 0 < |isns| <= ip + 1 ==> f == Fetched(0, Some(isns[0]))
  {
    var k := FetchIndex(|isns|, ip);
    Fetched(NextIp(|isns|, ip), if k < |isns| then Some(isns[k]) else None)
  }

  /** In a program of two or more entries the last one is never fetched. */
  lemma FetchSkipsLast(len: nat, ip: nat)
    requires len > 1
    ensures FetchIndex(len, ip) != len - 1
  {
  }

  /** After wrapping, entry 0 is fetched twice in a row. */
  lemma FetchRepeatsFirst(isns: seq<Instr>, ip: nat)
    requires 0 < |isns| <= ip + 1
    ensures Fetch(isns, ip).isn == Some(isns[0])
    ensures Fetch(isns, Fetch(isns, ip).ip).isn == Some(isns[0])
  {
  }

  /** The entry indices fetched by `n` successive fetches from `ip`. */
  function Trace(len: nat, ip: nat, n: nat): (t: seq<nat>)
    ensures |t| == n
    decreases n
  {
    if n == 0 then [] else [FetchIndex(len, ip)] + Trace(len, NextIp(len, ip), n - 1)
  }

  /** The instruction pointer after `n` successive fetches from `ip`. */
  function After(len: nat, ip: nat, n: nat): nat
    decreases n
  {
    if n == 0 then ip else After(len, NextIp(len, ip), n - 1)
  }

  function Range(lo: nat, hi: nat): (r: seq<nat>)
    requires lo <= hi
    ensures |r| == hi - lo
    ensures forall k :: 0 <= k < |r| ==> r[k] == lo + k
  {
    seq(hi - lo, k requires 0 <= k < hi - lo => lo + k)
  }

  lemma {:induction false} TraceSplit(len: nat, ip: nat, n: nat, m: nat)
    ensures Trace(len, ip, n + m) == Trace(len, ip, n) + Trace(len, After(len, ip, n), m)
    ensures After(len, ip, n + m) == After(len, After(len, ip, n), m)
    decreases n
  {
    if n > 0 {
      TraceSplit(len, NextIp(len, ip), n - 1, m);
    }
  }

  lemma {:induction false} TraceRun(len: nat, i: nat)
    requires 2 <= len && i <= len - 1
    ensures Trace(len, i, len - 1 - i) == Range(i, len - 1)
    ensures After(len, i, len - 1 - i) == len - 1
    decreases len - 1 - i
  {
    if i < len - 1 {
      TraceRun(len, i + 1);
      assert NextIp(len, i) == i + 1 && FetchIndex(len, i) == i;
      assert Trace(len, i, len - 1 - i) == [i] + Trace(len, i + 1, len - 1 - (i + 1));
    }
  }

  /** One lap of a program of length `len >= 2`, starting at 0, fetches
      entries 0, 1, ..., len - 2 and then 0 again, and ends back at 0. */
  lemma FetchLap(len: nat)
    requires len >= 2
    ensures Trace(len, 0, len) == Range(0, len - 1) + [0]
    ensures After(len, 0, len) == 0
  {
    TraceRun(len, 0);
    TraceSplit(len, 0, len - 1, 1);
  }

  /** Python's `int()` of a float: truncation toward zero. */
  function Trunc(q: real): int {
    if q >= 0.0 then q.Floor else -((-q).Floor)
  }

  /** `math.fmod(t, len)` for an integer `t`: the remainder carrying the
      sign of `t` (C's `%`, not Python's). */
  function Fmod(t: int, len: nat): (r: int)
    requires len > 0
    ensures -(len as int) < r < len
    ensures t >= 0 ==> r >= 0
    ensures t <= 0 ==> r <= 0
    ensures t == TruncDiv(t, len) * len + r
  {
    if t >= 0 then t % len else -((-t) % len)
  }

  /** Division rounding toward zero, the quotient that goes with `fmod`. */
  function TruncDiv(t: int, len: nat): int
    requires len > 0
  {
    if t >= 0 then t / len else -((-t) / len)
  }

  function AbsInt(n: int): nat {
    if n < 0 then -n else n
  }

  /** `jmp_(x)`: `int(abs(math.fmod(x, len)))`. The fractional part of
      `x` never moves the remainder across a whole number, so this is the
      remainder of `x`'s integer part, made non-negative. */
  function JumpTarget(x: real, len: nat): (ip: nat)
    requires len > 0
    ensures ip < len
    ensures ip == AbsReal(x).Floor % len
  {
    AbsInt(Fmod(Trunc(x), len))
  }

  /** For an integer target `t` the jump lands on `|t| mod len`, whatever
      the sign of `t`. */
  lemma JumpToInteger(t: int, len: nat)
    requires len > 0
    ensures JumpTarget(t as real, len) == AbsInt(t) % len
    ensures JumpTarget(-(t as real), len) == JumpTarget(t as real, len)
  {
  }

  // ----- Stack microcode -----

  /** `pop_(default)`: the top entry and the rest, or `default` and the
      empty stack. */
  function PopOr(stack: seq<Vec>, default: Vec): (r: (Vec, seq<Vec>))
    ensures stack == [] ==> r == (default, [])
    ensures stack != [] ==> r.1 + [r.0] == stack
  {
    if stack == [] then (default, []) else (stack[|stack| - 1], stack[..|stack| - 1])
  }

  /** `top_(default)`: what `pop_` would return, without popping. */
  function TopOr(stack: seq<Vec>, default: Vec): (v: Vec)
    ensures v == PopOr(stack, default).0
  {
    if stack == [] then default else stack[|stack| - 1]
  }

  /** The entry `k` places below the top, or `default` if there is none:
      an independent reading of what `pop_` calls produce. */
  function Below(stack: seq<Vec>, k: nat, default: Vec): Vec {
    if k < |stack| then stack[|stack| - 1 - k] else default
  }

  predicate IsArith(op: Opcode) {
    op.Add? || op.Sub? || op.Mul? || op.Div?
  }

  /** The default for a missing operand: (0, 0) for add and sub, (1, 1)
      for mul and div. */
  function Unit(op: Opcode): Vec
    requires IsArith(op)
  {
    if op.Add? || op.Sub? then Zero else PosOne
  }

  /** `div`'s divisor with every zero component replaced by 1. */
  function NonZero(b: Vec): (r: Vec)
    ensures r.x != 0.0 && r.y != 0.0
    ensures b.x != 0.0 ==> r.x == b.x
    ensures b.y != 0.0 ==> r.y == b.y
    ensures b.x == 0.0 ==> r.x == 1.0
    ensures b.y == 0.0 ==> r.y == 1.0
  {
    Vec(if b.x == 0.0 then 1.0 else b.x, if b.y == 0.0 then 1.0 else b.y)
  }

  function Combine(op: Opcode, a: Vec, b: Vec): Vec
    requires IsArith(op)
  {
    match op
    case Add => Plus(a, b)
    case Sub => Minus(a, b)
    case Mul => Times(a, b)
    case Div => Quotient(a, NonZero(b)).value
  }

  /** `add`, `sub`, `mul`, `div` on the stack: `b` is popped first, then
      `a`, missing operands take the default, and `a op b` is pushed. */
  function Binary(op: Opcode, stack: seq<Vec>): (r: seq<Vec>)
    requires IsArith(op)
    ensures |r| == if |stack| >= 2 then |stack| - 1 else 1
    ensures r[..|r| - 1] == if |stack| >= 2 then stack[..|stack| - 2] else []
    ensures r[|r| - 1] == Combine(op, Below(stack, 1, Unit(op)), Below(stack, 0, Unit(op)))
  {
    var pb := PopOr(stack, Unit(op));
    var pa := PopOr(pb.1, Unit(op));
    pa.1 + [Combine(op, pa.0, pb.0)]
  }

  /** `div` never divides by zero: a component divided by zero is kept
      as it is, every other one is divided, so it divides exactly when
      the divisor has no zero component. */
  lemma DivSubstitutesOne(a: Vec, b: Vec)
    ensures Quotient(a, NonZero(b)).Some?
    ensures Combine(Div, a, b) == Vec(if b.x == 0.0 then a.x else a.x / b.x,
                                      if b.y == 0.0 then a.y else a.y / b.y)
    ensures b.x != 0.0 && b.y != 0.0 ==> Some(Combine(Div, a, b)) == Quotient(a, b)
    ensures b == Zero ==> Combine(Div, a, b) == a
  {
  }

  // ----- Instructions -----

  function Push(r: Regs, v: Vec): Regs {
    r.(stack := r.stack + [v])
  }

  /** One instruction method of a CPU running the program `isns`. */
  function Execute(isns: seq<Instr>, r: Regs, b: Body, op: Opcode, draw: Draw): Outcome
  {
    match op
    case Pop =>
      Outcome(r.(stack := if r.stack == [] then [] else r.stack[..|r.stack| - 1]), b, None)
    case Dup =>
      Outcome(r, b, if r.stack == [] then None else Some(ListHasNoPush))
    case Const =>
      (match Coerce(r.arg)
       case Some(v) => Outcome(Push(r, v), b, None)
       case None => Outcome(r, b, Some(NotAVector(r.arg))))
    case Rand =>
      var p1 := PopOr(r.stack, NegOne);
      var p2 := PopOr(p1.1, PosOne);
      Outcome(r.(stack := p2.1 + [Random(p1.0, p2.0, draw.u, draw.w)]), b, None)
    case Pos => Outcome(Push(r, b.pos), b, None)
    case Vel => Outcome(Push(r, b.vel), b, None)
    case Acc =>
      var p := PopOr(r.stack, Zero);
      Outcome(r.(stack := p.1), Pushed(b, p.0), None)
    case Inv =>
      var p := PopOr(r.stack, TopOr(r.stack, Zero));
      Outcome(r.(stack := p.1 + [Negated(p.0)]), b, None)
    case Add => Outcome(r.(stack := Binary(op, r.stack)), b, None)
    case Sub => Outcome(r.(stack := Binary(op, r.stack)), b, None)
    case Mul => Outcome(r.(stack := Binary(op, r.stack)), b, None)
    case Div => Outcome(r.(stack := Binary(op, r.stack)), b, None)
    case Sleep =>
      var p := PopOr(r.stack, Zero);
      Outcome(r.(stack := p.1, sleep := p.0.x), b, None)
    case Br =>
      var f := Fetch(isns, r.ip);
      Outcome(r.(ip := f.ip), b, Some(if f.isn.None? then NoInstructions else PopNeedsDefault))
    case Jmp =>
      var p := PopOr(r.stack, Zero);
      if |isns| == 0 then Outcome(r.(stack := p.1), b, Some(ModuloByZero))
      else Outcome(r.(stack := p.1, ip := JumpTarget(p.0.x, |isns|)), b, None)
  }

  /** `exec(isn)`: a pair sets `_arg` to its operand and a bare name sets
      it to the zero vector, then the name is dispatched. */
  function ExecInstr(isns: seq<Instr>, r: Regs, b: Body, isn: Instr, draw: Draw): Outcome
  {
    match isn
    case Tuple(n) => Outcome(r, b, Some(CannotUnpack(n)))
    case Bare(name) => Dispatched(isns, r.(arg := OfVec(Zero)), b, name, draw)
    case Pair(name, arg) => Dispatched(isns, r.(arg := arg), b, name, draw)
  }

  function Dispatched(isns: seq<Instr>, r: Regs, b: Body, name: string, draw: Draw): Outcome
  {
    match Dispatch(name)
    case None => Outcome(r, b, Some(NoSuchInstruction(name)))
    case Some(op) => Execute(isns, r, b, op, draw)
  }

  /** `tick(dt)`: the sleep gate decides how much time the host gets and
      whether to fetch; the host integrates first, then at most one
      instruction runs. */
  function TickSpec(isns: seq<Instr>, r: Regs, b: Body, dt: real, draw: Draw): Outcome {
    var g := SleepGate(r.sleep, dt);
    var r1 := r.(sleep := g.sleep, dt := g.dt);
    var b1 := Drift(b, g.dt);
    if !g.fetch then Outcome(r1, b1, None)
    else
      var f := Fetch(isns, r1.ip);
      match f.isn
      case None => Outcome(r1.(ip := f.ip), b1, Some(NoInstructions))
      case Some(isn) => ExecInstr(isns, r1.(ip := f.ip), b1, isn, draw)
  }

  // ----- Properties of single instructions -----

  /** Only `dup`, `const` and `br` can raise, and `jmp` in an empty
      program (where `br` fails on its fetch instead of its pop); every other instruction absorbs a short stack with its
      defaults. */
  lemma WhichInstructionsFail(isns: seq<Instr>, r: Regs, b: Body, op: Opcode, draw: Draw)
    ensures Execute(isns, r, b, op, draw).fault.Some? ==> op.Dup? || op.Const? || op.Br? || (op.Jmp? && |isns| == 0)
    ensures op.Br? && |isns| > 0 ==> Execute(isns, r, b, op, draw).fault == Some(PopNeedsDefault)
    ensures op.Br? && |isns| == 0 ==> Execute(isns, r, b, op, draw).fault == Some(NoInstructions)
    ensures op.Dup? ==> (Execute(isns, r, b, op, draw).fault.Some? <==> r.stack != [])
    ensures op.Dup? ==> Execute(isns, r, b, op, draw).regs == r
    ensures op.Const? ==> (Execute(isns, r, b, op, draw).fault.Some? <==> Coerce(r.arg).None?)
  {
  }

  /** A name without an instruction method fails at dispatch, after
      `exec` has already stored the operand. */
  lemma UnknownNameFails(isns: seq<Instr>, r: Regs, b: Body, name: string, arg: Operand, draw: Draw)
    requires Dispatch(name).None?
    ensures ExecInstr(isns, r, b, Bare(name), draw) == Outcome(r.(arg := OfVec(Zero)), b, Some(NoSuchInstruction(name)))
    ensures ExecInstr(isns, r, b, Pair(name, arg), draw) == Outcome(r.(arg := arg), b, Some(NoSuchInstruction(name)))
  {
  }

  /** `const` pushes its coerced operand: a number s becomes (s, s), and
      a bare `const` pushes the zero vector. */
  lemma ConstPushesOperand(isns: seq<Instr>, r: Regs, b: Body, s: real, draw: Draw)
    ensures ExecInstr(isns, r, b, Pair("const", OfNum(s)), draw).regs.stack == r.stack + [Vec(s, s)]
    ensures ExecInstr(isns, r, b, Bare("const"), draw).regs.stack == r.stack + [Zero]
    ensures ExecInstr(isns, r, b, Pair("const", OfSeq([s, s, s])), draw).fault == Some(NotAVector(OfSeq([s, s, s])))
  {
    assert Dispatch("const") == Some(Const);
  }

  /** `inv` negates a non-empty top in place and pushes zero on an empty
      stack. */
  lemma InvNegatesTop(isns: seq<Instr>, r: Regs, b: Body, draw: Draw)
    ensures Execute(isns, r, b, Inv, draw).fault.None?
    ensures r.stack == [] ==> Execute(isns, r, b, Inv, draw).regs.stack == [Zero]
    ensures r.stack != [] ==> Execute(isns, r, b, Inv, draw).regs.stack
                              == r.stack[..|r.stack| - 1] + [Negated(r.stack[|r.stack| - 1])]
  {
  }

  /** `jmp` pops its target (zero if the stack is empty) and lands inside
      the program. */
  lemma JmpLandsInProgram(isns: seq<Instr>, r: Regs, b: Body, draw: Draw)
    requires |isns| > 0
    ensures Execute(isns, r, b, Jmp, draw).regs.ip == AbsReal(Below(r.stack, 0, Zero).x).Floor % |isns|
    ensures Execute(isns, r, b, Jmp, draw).regs.ip < |isns|
    ensures r.stack == [] ==> Execute(isns, r, b, Jmp, draw).regs.ip == 0
  {
  }

  /** `sleep` pops a vector (zero if the stack is empty) and takes its x
      component as the new countdown. */
  lemma SleepSetsCountdown(isns: seq<Instr>, r: Regs, b: Body, draw: Draw)
    ensures Execute(isns, r, b, Sleep, draw).regs.sleep == Below(r.stack, 0, Zero).x
    ensures Execute(isns, r, b, Sleep, draw).regs.stack == PopOr(r.stack, Zero).1
    ensures |Execute(isns, r, b, Sleep, draw).regs.stack| == if r.stack == [] then 0 else |r.stack| - 1
  {
  }

  /** `rand` pushes a vector inside the box spanned by the two popped
      bounds, which default to (-1, -1) and (1, 1). */
  lemma RandStaysInBounds(isns: seq<Instr>, r: Regs, b: Body, draw: Draw)
    requires 0.0 <= draw.u < 1.0 && 0.0 <= draw.w < 1.0
    ensures var st := Execute(isns, r, b, Rand, draw).regs.stack;
      |st| >= 1 && InBox(st[|st| - 1], Below(r.stack, 0, NegOne), Below(r.stack, 1, PosOne))
  {
    var p1 := PopOr(r.stack, NegOne);
    var p2 := PopOr(p1.1, PosOne);
    PopTwiceBelow(r.stack, NegOne, PosOne);
    var v := Random(p1.0, p2.0, draw.u, draw.w);
    assert Execute(isns, r, b, Rand, draw).regs.stack == p2.1 + [v];
    RandomInBox(p1.0, p2.0, draw.u, draw.w);
  }

  /** Two pops read the top and the entry below it. */
  lemma PopTwiceBelow(stack: seq<Vec>, d1: Vec, d2: Vec)
    ensures PopOr(stack, d1).0 == Below(stack, 0, d1)
    ensures PopOr(PopOr(stack, d1).1, d2).0 == Below(stack, 1, d2)
  {
  }

  lemma ExecuteKeepsClock(isns: seq<Instr>, r: Regs, b: Body, op: Opcode, draw: Draw)
    ensures var o := Execute(isns, r, b, op, draw);
      o.body.pos == b.pos && o.regs.dt == r.dt
    ensures r.ip < |isns| ==> Execute(isns, r, b, op, draw).regs.ip < |isns|
  {
  }

  lemma ExecInstrKeepsClock(isns: seq<Instr>, r: Regs, b: Body, isn: Instr, draw: Draw)
    ensures var o := ExecInstr(isns, r, b, isn, draw);
      o.body.pos == b.pos && o.regs.dt == r.dt
    ensures r.ip < |isns| ==> ExecInstr(isns, r, b, isn, draw).regs.ip < |isns|
  {
    match isn
    case Tuple(_) =>
    case Bare(name) =>
      if Dispatch(name).Some? { ExecuteKeepsClock(isns, r.(arg := OfVec(Zero)), b, Dispatch(name).value, draw); }
    case Pair(name, arg) =>
      if Dispatch(name).Some? { ExecuteKeepsClock(isns, r.(arg := arg), b, Dispatch(name).value, draw); }
  }

  // ----- Properties of a tick -----

  /** While the countdown outlasts `dt`, nothing is fetched: the countdown
      drops by `dt` and the host drifts for the whole `dt`. */
  lemma TickWhileAsleep(isns: seq<Instr>, r: Regs, b: Body, dt: real, draw: Draw)
    requires r.sleep > 0.0 && r.sleep > dt
    ensures TickSpec(isns, r, b, dt, draw) == Outcome(r.(sleep := r.sleep - dt, dt := dt), Drift(b, dt), None)
  {
  }

  /** Every tick drifts the host exactly once, by the time `sleep_`
      returned and with the velocity from before the tick, ahead of the
      instruction: an `acc` only shows in later ticks' positions. */
  lemma TickDriftsHostFirst(isns: seq<Instr>, r: Regs, b: Body, dt: real, draw: Draw)
    ensures TickSpec(isns, r, b, dt, draw).body.pos == Drift(b, SleepGate(r.sleep, dt).dt).pos
    ensures TickSpec(isns, r, b, dt, draw).regs.dt == SleepGate(r.sleep, dt).dt
  {
    var g := SleepGate(r.sleep, dt);
    var r1 := r.(sleep := g.sleep, dt := g.dt);
    if g.fetch && |isns| > 0 {
      var f := Fetch(isns, r1.ip);
      ExecInstrKeepsClock(isns, r1.(ip := f.ip), Drift(b, g.dt), f.isn.value, draw);
    }
  }

  /** The instruction pointer stays inside a non-empty program. */
  lemma TickKeepsIpInRange(isns: seq<Instr>, r: Regs, b: Body, dt: real, draw: Draw)
    requires r.ip < |isns|
    ensures TickSpec(isns, r, b, dt, draw).regs.ip < |isns|
  {
    var g := SleepGate(r.sleep, dt);
    var r1 := r.(sleep := g.sleep, dt := g.dt);
    if g.fetch {
      var f := Fetch(isns, r1.ip);
      ExecInstrKeepsClock(isns, r1.(ip := f.ip), Drift(b, g.dt), f.isn.value, draw);
    }
  }

  /** Drifting for `d1` and then for `d2` is drifting for `d1 + d2`. */
  lemma DriftAdds(b: Body, d1: real, d2: real)
    ensures Drift(Drift(b, d1), d2) == Drift(b, d1 + d2)
  {
    assert b.vel.x * (d1 + d2) == b.vel.x * d1 + b.vel.x * d2;
    assert b.vel.y * (d1 + d2) == b.vel.y * d1 + b.vel.y * d2;
  }
}
