/** The interpreter of lib/cpu.py as a class whose methods update its
    registers in place, and the enemy of lib/enemy.py that hosts it. Each
    method is proved against the functions of module Isa. */
module Machine {
  import opened Wrappers
  import opened Vectors
  import opened Isa
  import opened Sprites

  class Cpu {
    const host: Enemy
    const prog: Program
    var ip: nat
    var stack: seq<Vec>
    var sleep: real
    var arg: Operand
    var dt: real

    function Registers(): Regs
      reads this
    {
      Regs(ip, stack, sleep, arg, dt)
    }

    /** A fresh CPU holds one zero vector on its stack. */
    constructor (host: Enemy, prog: Program)
      ensures this.host == host && this.prog == prog
      ensures Registers() == Boot
    {
      this.host := host;
      this.prog := prog;
      ip := 0;
      stack := [Zero];
      sleep := 0.0;
      arg := OfVec(Zero);
      dt := 0.0;
    }

    // ----- Microcode -----

    /** `sleep_(dt)`: count the sleep down and decide whether to fetch. */
    method CountDown(dt: real) returns (dt': real, next: bool)
      modifies this`sleep
      ensures Gate(sleep, dt', next) == SleepGate(old(sleep), dt)
    {
      next := true;
      dt' := dt;
      if sleep > 0.0 {
        next := false;
        sleep := sleep - dt;
      }
      if sleep <= 0.0 {
        next := true;
        dt' := dt' + sleep;
        sleep := 0.0;
      }
    }

    /** `isn_()`: `None` stands for the IndexError of an empty program. */
    method NextIsn() returns (isn: Option<Instr>)
      modifies this`ip
      ensures Fetched(ip, isn) == Fetch(prog.isns, old(ip))
    {
      var i := ip;
      ip := ip + 1;
      if ip >= |prog.isns| {
        i := 0;
        ip := 0;
      }
      isn := if i < |prog.isns| then Some(prog.isns[i]) else None;
    }

    /** `jmp_(x)`; `fmod` by zero raises, so the program is non-empty. */
    method JumpTo(x: real)
      requires |prog.isns| > 0
      modifies this`ip
      ensures ip < |prog.isns| && ip == AbsReal(x).Floor % |prog.isns|
    {
      ip := JumpTarget(x, |prog.isns|);
    }

    /** `top_(default)` */
    method Peek(default: Vec) returns (v: Vec)
      ensures v == TopOr(stack, default)
      ensures stack != [] ==> v == stack[|stack| - 1]
    {
      v := if stack != [] then stack[|stack| - 1] else default;
    }

    /** `push_(v)` */
    method Append(v: Vec)
      modifies this`stack
      ensures stack == old(stack) + [v]
    {
      stack := stack + [v];
    }

    /** `pop_(default)` */
    method Take(default: Vec) returns (v: Vec)
      modifies this`stack
      ensures (v, stack) == PopOr(old(stack), default)
    {
      if stack != [] {
        v := stack[|stack| - 1];
        stack := stack[..|stack| - 1];
      } else {
        v := default;
      }
    }

    /** `pop2_(default)`: `b` is the top, `a` the entry below it. */
    method TakeTwo(default: Vec) returns (a: Vec, b: Vec)
      modifies this`stack
      ensures a == Below(old(stack), 1, default) && b == Below(old(stack), 0, default)
      ensures stack == PopOr(PopOr(old(stack), default).1, default).1
    {
      b := Take(default);
      a := Take(default);
    }

    // ----- Instructions -----

    method PopIsn()
      modifies this`stack
      ensures Outcome(Registers(), host.Snapshot(), None)
           == Execute(prog.isns, old(Registers()), old(host.Snapshot()), Pop, Draw(0.0, 0.0))
    {
      if stack != [] {
        stack := stack[..|stack| - 1];
      }
    }

    /** `dup` calls `push` on a list, which has no such method. */
    method DupIsn() returns (fault: Option<Fault>)
      ensures Outcome(Registers(), host.Snapshot(), fault)
           == Execute(prog.isns, Registers(), host.Snapshot(), Dup, Draw(0.0, 0.0))
    {
      fault := if stack != [] then Some(ListHasNoPush) else None;
    }

    method ConstIsn() returns (fault: Option<Fault>)
      modifies this`stack
      ensures Outcome(Registers(), host.Snapshot(), fault)
           == Execute(prog.isns, old(Registers()), old(host.Snapshot()), Const, Draw(0.0, 0.0))
    {
      var v := Coerce(arg);
      if v.Some? {
        Append(v.value);
        fault := None;
      } else {
        fault := Some(NotAVector(arg));
      }
    }

    method RandIsn(draw: Draw)
      modifies this`stack
      ensures Outcome(Registers(), host.Snapshot(), None)
           == Execute(prog.isns, old(Registers()), old(host.Snapshot()), Rand, draw)
    {
      var r1 := Take(NegOne);
      var r2 := Take(PosOne);
      Append(Random(r1, r2, draw.u, draw.w));
    }

    method PosIsn()
      modifies this`stack
      ensures Outcome(Registers(), host.Snapshot(), None)
           == Execute(prog.isns, old(Registers()), old(host.Snapshot()), Pos, Draw(0.0, 0.0))
    {
      Append(host.pos);
    }

    method VelIsn()
      modifies this`stack
      ensures Outcome(Registers(), host.Snapshot(), None)
           == Execute(prog.isns, old(Registers()), old(host.Snapshot()), Vel, Draw(0.0, 0.0))
    {
      Append(host.vel);
    }

    method AccIsn()
      modifies this`stack, host`vel
      ensures Outcome(Registers(), host.Snapshot(), None)
           == Execute(prog.isns, old(Registers()), old(host.Snapshot()), Acc, Draw(0.0, 0.0))
    {
      var a := Take(Zero);
      host.Acc(a);
    }

    /** `inv` pops with the top itself as default, so an empty stack
        gets a negated zero. */
    method InvIsn()
      modifies this`stack
      ensures Outcome(Registers(), host.Snapshot(), None)
           == Execute(prog.isns, old(Registers()), old(host.Snapshot()), Inv, Draw(0.0, 0.0))
    {
      var top := Peek(Zero);
      var v := Take(top);
      Append(Negated(v));
    }

    method AddIsn()
      modifies this`stack
      ensures Outcome(Registers(), host.Snapshot(), None)
           == Execute(prog.isns, old(Registers()), old(host.Snapshot()), Add, Draw(0.0, 0.0))
    {
      var a, b := TakeTwo(Zero);
      Append(Plus(a, b));
    }

    method SubIsn()
      modifies this`stack
      ensures Outcome(Registers(), host.Snapshot(), None)
           == Execute(prog.isns, old(Registers()), old(host.Snapshot()), Sub, Draw(0.0, 0.0))
    {
      var a, b := TakeTwo(Zero);
      Append(Minus(a, b));
    }

    method MulIsn()
      modifies this`stack
      ensures Outcome(Registers(), host.Snapshot(), None)
           == Execute(prog.isns, old(Registers()), old(host.Snapshot()), Mul, Draw(0.0, 0.0))
    {
      var a, b := TakeTwo(PosOne);
      Append(Times(a, b));
    }

    method DivIsn()
      modifies this`stack
      ensures Outcome(Registers(), host.Snapshot(), None)
           == Execute(prog.isns, old(Registers()), old(host.Snapshot()), Div, Draw(0.0, 0.0))
    {
      var a, b := TakeTwo(PosOne);
      var b' := b;
      if b.x == 0.0 {
        b' := b'.(x := 1.0);
      }
      if b.y == 0.0 {
        b' := b'.(y := 1.0);
      }
      assert b' == NonZero(b);
      Append(Quotient(a, b').value);
    }

    method SleepIsn()
      modifies this`stack, this`sleep
      ensures Outcome(Registers(), host.Snapshot(), None)
           == Execute(prog.isns, old(Registers()), old(host.Snapshot()), Sleep, Draw(0.0, 0.0))
    {
      var v := Take(Zero);
      sleep := v.x;
    }

    /** `br` fetches its operand entry, which fails on an empty program,
        then calls `pop_` without the default it requires. */
    method BrIsn() returns (fault: Option<Fault>)
      modifies this`ip
      ensures Outcome(Registers(), host.Snapshot(), fault)
           == Execute(prog.isns, old(Registers()), old(host.Snapshot()), Br, Draw(0.0, 0.0))
    {
      var isn := NextIsn();
      fault := Some(if isn.None? then NoInstructions else PopNeedsDefault);
    }

    method JmpIsn() returns (fault: Option<Fault>)
      modifies this`stack, this`ip
      ensures Outcome(Registers(), host.Snapshot(), fault)
           == Execute(prog.isns, old(Registers()), old(host.Snapshot()), Jmp, Draw(0.0, 0.0))
    {
      var v := Take(Zero);
      if |prog.isns| == 0 {
        fault := Some(ModuloByZero);
      } else {
        JumpTo(v.x);
        fault := None;
      }
    }

    // ----- Dispatch -----

    /** `getattr(self, name)()` */
    method Call(name: string, draw: Draw) returns (fault: Option<Fault>)
      modifies this`stack, this`ip, this`sleep, host`vel
      ensures Outcome(Registers(), host.Snapshot(), fault)
           == Dispatched(prog.isns, old(Registers()), old(host.Snapshot()), name, draw)
    {
      match Dispatch(name)
      case None =>
        fault := Some(NoSuchInstruction(name));
      case Some(op) =>
        fault := None;
        match op
        case Pop => PopIsn();
        case Dup => fault := DupIsn();
        case Const => fault := ConstIsn();
        case Rand => RandIsn(draw);
        case Pos => PosIsn();
        case Vel => VelIsn();
        case Acc => AccIsn();
        case Inv => InvIsn();
        case Add => AddIsn();
        case Sub => SubIsn();
        case Mul => MulIsn();
        case Div => DivIsn();
        case Sleep => SleepIsn();
        case Br => fault := BrIsn();
        case Jmp => fault := JmpIsn();
    }

    /** `exec(isn)`: a pair stores its operand, a bare name stores zero,
        and any other tuple fails to unpack before anything is stored. */
    method Exec(isn: Instr, draw: Draw) returns (fault: Option<Fault>)
      modifies this`stack, this`ip, this`sleep, this`arg, host`vel
      ensures Outcome(Registers(), host.Snapshot(), fault)
           == ExecInstr(prog.isns, old(Registers()), old(host.Snapshot()), isn, draw)
    {
      match isn
      case Tuple(n) =>
        fault := Some(CannotUnpack(n));
      case Bare(name) =>
        arg := OfVec(Zero);
        fault := Call(name, draw);
      case Pair(name, a) =>
        arg := a;
        fault := Call(name, draw);
    }

    /** `tick(dt)`: the host moves first, then at most one instruction
        runs. */
    method Tick(dt: real, draw: Draw) returns (fault: Option<Fault>)
      modifies this`stack, this`ip, this`sleep, this`arg, this`dt, host`pos, host`vel
      ensures Outcome(Registers(), host.Snapshot(), fault)
           == TickSpec(prog.isns, old(Registers()), old(host.Snapshot()), dt, draw)
    {
      var dt', next := CountDown(dt);
      this.dt := dt';
      host.CpuTick(dt');
      fault := None;
      if next {
        var isn := NextIsn();
        if isn.None? {
          fault := Some(NoInstructions);
        } else {
          fault := Exec(isn.value, draw);
        }
      }
    }
  }

  class Enemy {
    var pos: Vec
    var vel: Vec
    var cpu: Cpu?
    const sprite: Sprite

    function Snapshot(): Body
      reads this
    {
      Body(pos, vel)
    }

    /** The enemy owns a CPU that drives it. */
    predicate Valid()
      reads this, cpu
    {
      cpu != null && cpu.host == this
    }

    /** Builds the CPU around the new enemy and puts the sprite on `pos`. */
    constructor (pos: Vec, vel: Vec, sprite: Sprite, program: Program)
      modifies sprite`pos
      ensures Valid() && fresh(cpu)
      ensures Snapshot() == Body(pos, vel) && cpu.prog == program && cpu.Registers() == Boot
      ensures this.sprite == sprite && sprite.pos == pos
    {
      this.pos := pos;
      this.vel := vel;
      this.sprite := sprite;
      cpu := null;
      new;
      cpu := new Cpu(this, program);
      Update();
    }

    /** `update()`: keep the sprite on the enemy's position. */
    method Update()
      modifies sprite`pos
      ensures sprite.pos == pos
    {
      sprite.pos := pos;
    }

    /** `cpu_tick(dt)`: the CPU's time step moves the enemy. */
    method CpuTick(dt: real)
      modifies this`pos
      ensures Snapshot() == Drift(old(Snapshot()), dt)
    {
      pos := Plus(pos, Times(vel, Scalar(dt)));
    }

    /** `acc(a)`: the `acc` instruction changes the velocity directly. */
    method Acc(a: Vec)
      modifies this`vel
      ensures Snapshot() == Pushed(old(Snapshot()), a)
    {
      vel := Plus(vel, a);
    }

    /** `tick(dt)`: run the CPU, then move the sprite; an exception from
        the CPU skips the sprite update. */
    method Tick(dt: real, draw: Draw) returns (fault: Option<Fault>)
      requires Valid()
      modifies this, cpu, sprite`pos
      ensures Valid() && cpu == old(cpu)
      ensures Outcome(cpu.Registers(), Snapshot(), fault)
           == TickSpec(cpu.prog.isns, old(cpu.Registers()), old(Snapshot()), dt, draw)
      ensures sprite.pos == if fault.None? then pos else old(sprite.pos)
    {
      fault := cpu.Tick(dt, draw);
      if fault.None? {
        Update();
      }
    }
  }
}
