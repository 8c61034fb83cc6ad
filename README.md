# A verified model of the enemy-scripting CPU

This project models the small bytecode interpreter that scripts enemy movement in `lib/cpu.py`, together with the pieces it runs on:

- the `Vector2D` value type (`lib/vector2d.py`);
- the `Enemy` it drives (`lib/enemy.py`);
- the richer `Entity` host (`lib/entity.py`);
- the `Rect`/`Sprite` geometry (`lib/sprite.py`).

A program is a list of entries. Each entry is an instruction name, a `(name, operand)` pair, or some other tuple. On every frame, `CPU.tick(dt)` does three things:

1. It counts the sleep countdown down.
2. It moves the host by its velocity for the time `sleep_` hands back.
3. If the countdown has run out, it fetches one entry and dispatches it by name to one of fifteen instruction methods. These work on a stack of 2-D vectors and substitute defaults when the stack is short.

Modules, one per file:

| file | module | models |
|---|---|---|
| `wrappers.dfy` | `Wrappers` | `Option` |
| `vector2d.dfy` | `Vectors` | `Vector2D` as a value datatype over exact reals: the constructor, `coerce`, the componentwise operators, `dot`, truthiness, `lerp`, `random` |
| `sprite.dfy` | `Sprites` | classes `Rect` and `Sprite`: edges, centre, half-open containment, `centered`, in-place `move`, `as_tuple`, `Sprite.rect` |
| `entity.dfy` | `Entities` | class `Entity` with the shared id counter, `accelerate`, the effective `set_vel`, `tick_pos`, `tick_cpu`, `tick`, `set_pos`/`pos_changed`; its kinematics as pure functions on a `Motion` value |
| `isa.dfy` | `Isa` | the interpreter's semantics as functions on values: registers, `sleep_`, `isn_`, `jmp_`, the stack microcode, each instruction, `exec` and one `tick` (`TickSpec`); lemmas about them |
| `machine.dfy` | `Machine` | class `Cpu` (registers as fields, one method per microcode routine and per instruction, `Exec`, `Tick`) and class `Enemy`. Each method is proved to produce exactly the state the `Isa` function prescribes |
| `runs.dfy` | `Runs` | several ticks in a row, and what the interpreter does with the example program of `lib/cpu_test.py` |

An exception in the source becomes a `Fault` value returned next to the new state. The state keeps every change made before the raise: `br` has already advanced the pointer, and an unknown name has already stored its operand. The two `Random.random()` draws of a `rand` arrive as a `Draw` parameter.

Two behaviours of the code are easy to misread:

- On waking from a positive countdown `s <= dt`, `sleep_` hands the host `s`, not `dt`. The part of `dt` left after the countdown is dropped, not carried into the tick (`lib/cpu.py:59-68`).
- `isn_` never fetches the last entry of a program longer than one entry. After a wrap it fetches entry 0 twice. So the trailing `sleep` of the example program never runs, and its stack grows by two vectors per lap (`Runs.SampleLaps`).

## Model

| member | source | states |
|---|---|---|
| Vectors.New | lib/vector2d.py:15-16 | `Vector2D()` is (0,0), `Vector2D(x)` is (x,x), `Vector2D(x, y)` is (x,y); more arguments are a TypeError |
| Vectors.Coerce | lib/vector2d.py:112-119 | a vector is returned unchanged, a number becomes (x,x), a tuple is spread into the constructor; it fails exactly for a tuple longer than two |
| Vectors.Plus | lib/vector2d.py:45-48 | `+`: the componentwise sum |
| Vectors.Minus | lib/vector2d.py:40-43 | `-`: the componentwise difference |
| Vectors.Times | lib/vector2d.py:50-53 | `*`: the componentwise product |
| Vectors.Quotient | lib/vector2d.py:63-66 | `/`: the componentwise quotient, or the ZeroDivisionError when a divisor component is zero |
| Vectors.Negated | lib/vector2d.py:59-61 | unary `-`: both components negated |
| Vectors.Abs | lib/vector2d.py:73-75 | `abs`: the absolute value of each component |
| Vectors.Dot | lib/vector2d.py:30-33 | `dot`: the sum of the componentwise products |
| Vectors.Truthy | lib/vector2d.py:37-38 | `bool(v)`: as written, true exactly when both components are zero |
| Vectors.Lerp | lib/vector2d.py:9-10 | the module-level `lerp(t, x0, x1) = x0·(1-t) + x1·t` |
| Vectors.LerpVec | lib/vector2d.py:140-144 | `Vector2D.lerp`: `lerp` applied to vectors through the operators |
| Vectors.Random | lib/vector2d.py:121-127 | `random(x0, x1)`: each component is `lerp` of one draw between the corners |
| Vectors.ScalarOperand | lib/vector2d.py:50-57 | multiplying by a number scales both components, on either side |
| Vectors.PlusMinusInverse | lib/vector2d.py:40-48 | componentwise subtraction undoes addition, and is addition of the negation |
| Vectors.NegatedInvolutive | lib/vector2d.py:59-61 | negation flips both components: it is its own inverse and the additive inverse |
| Vectors.AbsNonNegative | lib/vector2d.py:73-75 | `abs` has non-negative components equal to each component or its negation |
| Vectors.DotSymmetric | lib/vector2d.py:30-33 | the dot product is symmetric, and dotting with (1,1) sums the components |
| Vectors.DotSelf | lib/vector2d.py:30-33 | `a·a` is never negative and `a·0` is 0 |
| Vectors.TruthyIffZero | lib/vector2d.py:37-38 | `bool(v)` holds exactly for the zero vector (inverted truthiness) |
| Vectors.QuotientUndoesTimes | lib/vector2d.py:63-66 | division is componentwise, fails exactly on a zero divisor component, and undoes multiplication otherwise |
| Vectors.LerpEnds | lib/vector2d.py:9-10 | `lerp(0, x0, x1) = x0` and `lerp(1, x0, x1) = x1` |
| Vectors.LerpVecEnds | lib/vector2d.py:140-144 | the same end points for vectors |
| Vectors.LerpBetween | lib/vector2d.py:9-10 | for `t` in [0,1], `lerp` lies between its end points, whichever is larger |
| Vectors.RandomInBox | lib/vector2d.py:121-127 | with draws in [0,1), each component of `random(x0, x1)` lies between those of `x0` and `x1` |
| Sprites.Rect.constructor | lib/sprite.py:12-14 | stores position and size |
| Sprites.Rect.Width | lib/sprite.py:17-18 | the `width` property: `size.x` |
| Sprites.Rect.Height | lib/sprite.py:20-21 | the `height` property: `size.y` |
| Sprites.Rect.Left | lib/sprite.py:23-24 | the `left` property: `pos.x` |
| Sprites.Rect.Top | lib/sprite.py:29-30 | the `top` property: `pos.y` |
| Sprites.Rect.Right | lib/sprite.py:25-27 | `right = left + width` |
| Sprites.Rect.Bottom | lib/sprite.py:31-33 | `bottom = top + height` |
| Sprites.Rect.Center | lib/sprite.py:35-37 | the centre is equally far from the left and right edges, and from the top and bottom |
| Sprites.Rect.Contains | lib/sprite.py:47-51 | the right and bottom edges are excluded; an empty or negative-size rect contains nothing |
| Sprites.Rect.AsTuple | lib/sprite.py:53-54 | `(left, top, width, height)`, whose sums are the right and bottom edges |
| Sprites.Rect.Centered | lib/sprite.py:39-41 | a new rect of the same size shifted by minus half the size, whose centre is the old position |
| Sprites.Rect.Move | lib/sprite.py:43-45 | shifts the position by `d` in place, keeps the size, returns the same rect, moves the centre by `d`, and `v` was inside iff `v + d` is inside now |
| Sprites.ContainsCenter | lib/sprite.py:47-51 | a rect of positive size contains its own centre and its top-left corner |
| Sprites.Sprite.constructor | lib/sprite.py:66-69 | a new sprite sits at (0,0) with the given size |
| Sprites.Sprite.GetRect | lib/sprite.py:71-73 | `rect` is a new rect of the sprite's size centred on the sprite's position |
| Entities.Accelerated | lib/entity.py:89-91 | `accelerate(a)` adds `a` to the pending acceleration and leaves position and velocity alone |
| Entities.Damped | lib/entity.py:77 | the first half of `tick_pos`: the velocity gains 0.99 times the pending acceleration |
| Entities.Advanced | lib/entity.py:80-81 | the second half of `tick_pos`: the acceleration is cleared and the position moves by velocity times `dt` |
| Entities.VelocityRequested | lib/entity.py:93-94 | the effective `set_vel(v)` leaves position and velocity alone and adds `v - vel` to the pending acceleration, whatever was pending; with none pending, velocity plus acceleration is then `v` |
| Entities.Integrated | lib/entity.py:75-82 | `tick_pos` adds 0.99 times the pending acceleration to the velocity, clears the acceleration, and moves the position by the NEW velocity times `dt` |
| Entities.AccelerationsAccumulate | lib/entity.py:89-91 | two accelerations act as their sum, and a zero one does nothing |
| Entities.VelocityRequestFallsShort | lib/entity.py:75-82 | after `set_vel(v)` and a tick, the velocity is `lerp(0.99, vel, v)` plus 0.99 times whatever acceleration was already pending: only 99% of the requested change |
| Entities.IntegrationConsumesAcceleration | lib/entity.py:75-82 | a second tick adds no velocity |
| Entities.IdCounter.constructor | lib/entity.py:5 | the class counter starts at 0 |
| Entities.Entity.constructor | lib/entity.py:6-25 | bumps the shared counter and takes its value as the id (ids strictly increase), stores position and velocity with zero acceleration and `dt`, and puts the sprite on the position |
| Entities.Entity.PosChanged | lib/entity.py:42-46 | puts the sprite on the entity's position and returns the entity |
| Entities.Entity.SetPos | lib/entity.py:59-61 | stores the position, moves the sprite there, changes nothing else |
| Entities.Entity.Accelerate | lib/entity.py:89-91 | the new state is `Accelerated` of the old |
| Entities.Entity.SetVel | lib/entity.py:93-94 | the new state is `VelocityRequested` of the old |
| Entities.Entity.TickPos | lib/entity.py:75-82 | the new kinematics are `Integrated` of the old, and the sprite follows the position |
| Entities.Entity.Damp | lib/entity.py:77 | the new kinematics are `Damped` of the old; only the velocity changes |
| Entities.Entity.Advance | lib/entity.py:80-81 | the new kinematics are `Advanced` of the old; the velocity is kept |
| Entities.Entity.TickCpu | lib/entity.py:71-73 | records `dt` and integrates by it |
| Entities.Entity.Tick | lib/entity.py:68-69 | integrates by the recorded `dt` |
| Entities.Entity.GetRect | lib/entity.py:27-29 | the entity's rect is its sprite's |
| Isa.Dispatch | lib/cpu.py:55-56 | a name resolves only to the instruction of that name |
| Isa.NameDispatches | lib/cpu.py:55-56 | every instruction is reached by its own name |
| Isa.DispatchByName | lib/cpu.py:55-56 | dispatch fails exactly for the names no instruction has |
| Isa.SleepGate | lib/cpu.py:59-68 | a countdown `s > dt` drops by `dt` with no fetch and hands `dt` to the host; otherwise it is cleared, a fetch follows, and the host gets `s` (if `s > 0`) or `dt + s`; the countdown is never negative afterwards |
| Isa.AsleepExactly | lib/cpu.py:59-68 | with a fixed positive `dt`, a countdown `s` blocks fetching for `n` ticks iff `s > n·dt` |
| Isa.Fetch | lib/cpu.py:70-76 | returns entry `ip` and moves to `ip+1`, except that when `ip+1` reaches the length both become 0; the pointer stays in range; an empty program raises |
| Isa.FetchSkipsLast | lib/cpu.py:70-76 | in a program of two or more entries the last entry is never fetched |
| Isa.FetchRepeatsFirst | lib/cpu.py:70-76 | after a wrap, entry 0 is fetched twice in a row |
| Isa.FetchLap | lib/cpu.py:70-76 | from 0, a program of length `n >= 2` fetches 0, 1, …, n-2, 0 and is back at 0 after `n` fetches |
| Isa.Fmod | lib/cpu.py:78-79 | `math.fmod` on integers: `t = q·len + r` for the quotient `q` rounded toward zero, with `r` smaller than `len` in size and of the sign of `t` |
| Isa.JumpTarget | lib/cpu.py:78-79 | `jmp_(x)` lands on `floor(abs(x)) mod len`, always inside the program |
| Isa.JumpToInteger | lib/cpu.py:78-79 | for an integer target the sign does not matter |
| Isa.PopOr | lib/cpu.py:87-91 | `pop_` returns the top and the rest, or the default and the empty stack |
| Isa.TopOr | lib/cpu.py:81-82 | `top_` returns what `pop_` would, without popping |
| Isa.NonZero | lib/cpu.py:132-138 | `div`'s divisor: a zero component becomes 1 and a nonzero one is kept, so no component is zero |
| Isa.Binary | lib/cpu.py:93-96 | `add`/`sub`/`mul`/`div` replace the top two entries by `a op b` (top is `b`), with (0,0) or (1,1) for missing operands; a stack of `n >= 2` ends with `n-1` entries, a shorter one with 1 |
| Isa.DivSubstitutesOne | lib/cpu.py:132-139 | `div` never divides by zero: each component of the result is `a`'s divided by the divisor's, or `a`'s unchanged where the divisor's is zero; with no zero component it is the plain quotient |
| Isa.WhichInstructionsFail | lib/cpu.py:99-148 | only `dup`, `const`, `br`, and `jmp` in an empty program raise; `br` always raises, the IndexError of its fetch on an empty program and the TypeError of `pop_()` otherwise; `dup` raises iff the stack is non-empty and otherwise does nothing; `const` raises iff the operand cannot be coerced |
| Isa.UnknownNameFails | lib/cpu.py:49-56 | a name with no instruction raises after `exec` stored the operand (zero for a bare name) |
| Isa.ConstPushesOperand | lib/cpu.py:49-53 | `const s` pushes (s,s), a bare `const` pushes (0,0), a 3-tuple operand raises |
| Isa.InvNegatesTop | lib/cpu.py:120-122 | `inv` negates a non-empty top in place and pushes zero on an empty stack |
| Isa.JmpLandsInProgram | lib/cpu.py:147-148 | `jmp` pops its target (zero when empty) and lands on `floor(abs(x)) mod len` |
| Isa.SleepSetsCountdown | lib/cpu.py:140-141 | `sleep` pops a vector (zero when empty), its x component becomes the countdown, and the stack is the old one without its top |
| Isa.RandStaysInBounds | lib/cpu.py:107-112 | `rand` pushes a vector between the popped top (default (-1,-1)) and the entry below it (default (1,1)) |
| Isa.ExecInstrKeepsClock | lib/cpu.py:49-56 | no instruction changes the host's position or the recorded `dt`, and none moves the pointer out of the program |
| Isa.TickWhileAsleep | lib/cpu.py:42-46 | while the countdown outlasts `dt`, a tick only counts down and moves the host by `dt` |
| Isa.TickDriftsHostFirst | lib/cpu.py:42-46 | each tick moves the host once, by the time `sleep_` returned and with the velocity from before the tick, and records that time |
| Isa.TickKeepsIpInRange | lib/cpu.py:42-46 | the pointer stays inside the program |
| Isa.DriftAdds | lib/enemy.py:25-26 | moving for `d1` then `d2` is moving for `d1 + d2` |
| Isa.Drift | lib/enemy.py:25-26 | the host's `cpu_tick(dt)`: the position moves by velocity times `dt` |
| Isa.Pushed | lib/enemy.py:28-30 | the host's `acc(a)`: `a` is added to the velocity |
| Isa.Execute | lib/cpu.py:99-148 | each of the fifteen instruction methods, with the fault it raises and the state changes made before the raise |
| Isa.Dispatched | lib/cpu.py:55-56 | `getattr(self, name)()`: an unknown name raises AttributeError, a known one runs its instruction |
| Isa.ExecInstr | lib/cpu.py:49-54 | `exec`: a pair stores its operand, a bare name stores the zero vector, any other tuple fails to unpack, then the name is dispatched |
| Isa.TickSpec | lib/cpu.py:42-46 | one `tick(dt)`: the sleep gate, the host moving for the time it returns, then at most one fetch and `exec`; a fetch from an empty program raises |
| Runs.RunSplit | lib/cpu.py:42-46 | two runs back to back are one run over both |
| Runs.RunAfterFault | lib/cpu.py:42-46 | a run that raised stays where it stopped |
| Runs.Run | lib/cpu.py:42-46 | the ticks of a caller's loop, one per time step and draw, up to the first exception |
| Runs.SampleFetches | lib/cpu.py:42-46 | with the countdown run out, a tick of the example program fetches and executes one entry after moving the host |
| Runs.ConstVecStep | lib/cpu.py:105-106 | an entry `("const", v)` stores and pushes `v` |
| Runs.ConstNumStep | lib/cpu.py:105-106 | an entry `("const", s)` stores `s` and pushes (s,s) |
| Runs.RandStep | lib/cpu.py:107-112 | a bare `rand` replaces the top two entries by a random vector between them |
| Runs.AccStep | lib/cpu.py:117-119 | a bare `acc` pops the top and adds it to the host's velocity |
| Runs.SampleTick | lib/cpu_test.py:3-12 | each tick of the example program, from each pointer: entry 5 never runs, and pointer 5 wraps and runs entry 0 |
| Runs.SampleLap | lib/cpu_test.py:3-12 | six ticks from entry 0 return to it without sleeping, leave (0.03,0.03) and (-5,-5) on the stack, and change the velocity by a vector inside the box from (-5,-5) to (5,5) |
| Runs.SampleLaps | lib/cpu_test.py:3-12 | the example program never raises or sleeps, and `k` laps grow the stack by `2k` |
| Machine.Cpu.constructor | lib/cpu.py:28-37 | a new CPU has pointer 0, a stack holding one zero vector, no countdown, a zero operand and `dt` 0 |
| Machine.Cpu.CountDown | lib/cpu.py:59-68 | `sleep_` updates the countdown and returns the time and fetch flag `SleepGate` prescribes |
| Machine.Cpu.NextIsn | lib/cpu.py:70-76 | `isn_` updates the pointer and returns the entry `Fetch` prescribes |
| Machine.Cpu.JumpTo | lib/cpu.py:78-79 | `jmp_(x)` sets the pointer to `floor(abs(x)) mod len` |
| Machine.Cpu.Peek | lib/cpu.py:81-82 | returns the top, or the default on an empty stack |
| Machine.Cpu.Append | lib/cpu.py:84-85 | appends one vector, without a depth bound |
| Machine.Cpu.Take | lib/cpu.py:87-91 | pops as `PopOr` prescribes |
| Machine.Cpu.TakeTwo | lib/cpu.py:93-96 | returns the entry below the top and the top, each defaulted, and pops both |
| Machine.Cpu.PopIsn | lib/cpu.py:99-101 | the new state is `Execute` of `pop` |
| Machine.Cpu.DupIsn | lib/cpu.py:102-104 | no state change; raises iff the stack is non-empty |
| Machine.Cpu.ConstIsn | lib/cpu.py:105-106 | the new state and fault are `Execute` of `const` |
| Machine.Cpu.RandIsn | lib/cpu.py:107-112 | the new state is `Execute` of `rand` with the given draws |
| Machine.Cpu.PosIsn | lib/cpu.py:113-114 | pushes the host's position |
| Machine.Cpu.VelIsn | lib/cpu.py:115-116 | pushes the host's velocity |
| Machine.Cpu.AccIsn | lib/cpu.py:117-119 | pops an acceleration (zero when empty) and adds it to the host's velocity |
| Machine.Cpu.InvIsn | lib/cpu.py:120-122 | the new state is `Execute` of `inv` |
| Machine.Cpu.AddIsn | lib/cpu.py:123-125 | the new stack is `Binary(add, ...)` |
| Machine.Cpu.SubIsn | lib/cpu.py:126-128 | the new stack is `Binary(sub, ...)` |
| Machine.Cpu.MulIsn | lib/cpu.py:129-131 | the new stack is `Binary(mul, ...)` |
| Machine.Cpu.DivIsn | lib/cpu.py:132-139 | the new stack is `Binary(div, ...)`, with zero divisor components replaced by 1 |
| Machine.Cpu.SleepIsn | lib/cpu.py:140-141 | the new state is `Execute` of `sleep` |
| Machine.Cpu.BrIsn | lib/cpu.py:142-146 | advances the pointer as one fetch would, then raises: IndexError for an empty program, otherwise the TypeError of `pop_()` without a default |
| Machine.Cpu.JmpIsn | lib/cpu.py:147-148 | the new state and fault are `Execute` of `jmp` |
| Machine.Cpu.Call | lib/cpu.py:55-56 | dispatching a name changes the state as `Dispatched` prescribes |
| Machine.Cpu.Exec | lib/cpu.py:49-56 | `exec` changes the state as `ExecInstr` prescribes |
| Machine.Cpu.Tick | lib/cpu.py:42-46 | the CPU's registers, the host's position and velocity, and the fault are exactly `TickSpec` of the old ones |
| Machine.Enemy.constructor | lib/enemy.py:5-16 | stores position and velocity, creates a fresh CPU whose host is this enemy, and puts the sprite on the position |
| Machine.Enemy.Update | lib/enemy.py:18-19 | puts the sprite on the enemy's position |
| Machine.Enemy.CpuTick | lib/enemy.py:25-26 | `pos += vel·dt`, velocity unchanged |
| Machine.Enemy.Acc | lib/enemy.py:28-30 | `vel += a`, position unchanged |
| Machine.Enemy.Tick | lib/enemy.py:21-23 | runs one CPU tick as `TickSpec` prescribes, then puts the sprite on the new position unless the CPU raised |

## Left out

- Floating point: vector components are exact reals. IEEE rounding, infinities and NaN are not modelled.
- Randomness: `Random.random()` is an input. The two values of one `rand` arrive as a `Draw`, and the lemmas assume they lie in [0, 1).
- Output and drawing: `__repr__`/`__str__`, `print`, `draw` and `as_pygame_Rect`.
- The game loops of `lib/game.py` and `pygame/`, and the `hello` programs.
- `lib/cpu.py`'s `State` class: it prints and lacks the `cpu_tick` that `tick` calls. `Enemy` is the host instead.
- The CPU's `_isn` field: only `__repr__` reads it.
- Dispatch to attributes other than the fifteen instructions: `getattr` would also find methods such as `tick` or `exec`. Here any other name is a dispatch failure.
- `Vector2D.__mod__`, `pair`, `norm`, `normal_and_norm`, `normal`, `reflected`, `rotated`, `to_polar`, `distance_to`, `random_in_circle` and `random_on_circle`: float modulus, square roots, trigonometry and an unbounded rejection loop.
- Vectors.Plus, Vectors.Minus, Vectors.Times, Vectors.Quotient, Vectors.Dot: these take the right operand after `coerce`. The Python operator on an operand `o` is the function applied to `Coerce(o).value`, and it raises where `Coerce(o)` is `None`. That composition is not a member of its own; `ScalarOperand` states it for a number.
- `Entity`'s keyword-argument `setattr` loop (`lib/entity.py:23-24`), the `check()` assertions, and `limit_speed`. `max_speed` is a public attribute that starts as `None` (`lib/entity.py:22`). Nothing in the repository sets it except that loop. The model covers the `tick_pos` path with `max_speed` left at `None`, which skips `limit_speed`.
- The `speed` property and its broken setter, `move_toward`, `avoid_point`, `repel_from`, `get_pos`/`get_vel`, and the first `set_vel` (lines 64-66). The later definition at line 93 replaces that first one.
- Isa.JumpTarget: `math.fmod` is taken on the integer part of the target. This gives the same result for every real target, but the float remainder is not modelled.
- Machine.Cpu.JumpTo: requires a non-empty program. The only caller, `JmpIsn`, reports the `fmod` by zero as a fault before calling it.
- `br`'s branch arithmetic (`self.ip_`, `self.isn`): it can never be reached, because `pop_()` without a default raises first.
- Exceptions raised inside the host's `acc` or `cpu_tick` cannot occur with vector values, so they are not modelled.
