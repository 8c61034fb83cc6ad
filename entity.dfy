/** The richer host object of lib/entity.py: position, velocity and a
    pending acceleration, integrated once per tick. */
module Entities {
  import opened Vectors
  import opened Sprites

  /** The kinematic part of an entity. */
  datatype Motion = Motion(pos: Vec, vel: Vec, acc: Vec)

  /** `accelerate(a)`: accumulate into the pending acceleration. */
  function Accelerated(m: Motion, a: Vec): (r: Motion)
    ensures r.pos == m.pos && r.vel == m.vel
    ensures Minus(r.acc, m.acc) == a
  {
    m.(acc := Plus(m.acc, a))
  }

  /** The effective `set_vel(v)` (the second definition in the class):
      it only asks for the difference as an acceleration. */
  function VelocityRequested(m: Motion, v: Vec): (r: Motion)
    ensures r.pos == m.pos && r.vel == m.vel
    ensures Minus(r.acc, m.acc) == Minus(v, m.vel)
    ensures m.acc == Zero ==> Plus(r.vel, r.acc) == v
  {
    Accelerated(m, Minus(v, m.vel))
  }

  /** The first half of `tick_pos`: add 0.99 times the pending
      acceleration to the velocity. */
  function Damped(m: Motion): Motion {
    m.(vel := Plus(m.vel, Times(m.acc, Scalar(0.99))))
  }

  /** The second half of `tick_pos`: clear the pending acceleration and
      move with the velocity. */
  function Advanced(m: Motion, dt: real): Motion {
    m.(acc := Zero, pos := Plus(m.pos, Times(m.vel, Scalar(dt))))
  }

  /** `tick_pos(dt)` with no speed limit: the new velocity gains 0.99
      times the pending acceleration, the acceleration is cleared, and
      the position moves with the new velocity. */
  function Integrated(m: Motion, dt: real): (r: Motion)
    ensures r.acc == Zero
    ensures Minus(r.vel, m.vel) == Times(m.acc, Scalar(0.99))
    ensures Minus(r.pos, m.pos) == Times(r.vel, Scalar(dt))
  {
    Advanced(Damped(m), dt)
  }

  /** Accelerations accumulate: two calls act like one with the sum. */
  lemma AccelerationsAccumulate(m: Motion, a: Vec, b: Vec)
    ensures Accelerated(Accelerated(m, a), b) == Accelerated(m, Plus(a, b))
    ensures Accelerated(m, Zero) == m
  {
  }

  /** `set_vel(v)` followed by a tick brings the velocity only 99% of the
      way to `v`: the new velocity is `lerp(0.99, vel, v)`, plus 0.99 of
      whatever acceleration was already pending. */
  lemma VelocityRequestFallsShort(m: Motion, v: Vec, dt: real)
    ensures Integrated(VelocityRequested(m, v), dt).vel == Plus(LerpVec(0.99, m.vel, v), Times(m.acc, Scalar(0.99)))
    ensures m.acc == Zero ==> Integrated(VelocityRequested(m, v), dt).vel == LerpVec(0.99, m.vel, v)
  {
    var a := Plus(m.acc, Minus(v, m.vel));
    var vel := Integrated(VelocityRequested(m, v), dt).vel;
    assert vel == Plus(m.vel, Times(a, Scalar(0.99)));
    assert vel.x == m.vel.x * (1.0 - 0.99) + v.x * 0.99 + m.acc.x * 0.99;
    assert vel.y == m.vel.y * (1.0 - 0.99) + v.y * 0.99 + m.acc.y * 0.99;
  }

  /** A second tick adds no velocity: the pending acceleration was used
      up by the first. */
  lemma IntegrationConsumesAcceleration(m: Motion, dt1: real, dt2: real)
    ensures Integrated(Integrated(m, dt1), dt2).vel == Integrated(m, dt1).vel
  {
    assert Times(Integrated(m, dt1).acc, Scalar(0.99)) == Zero;
  }

  /** The class attribute `Entity.id`: the last id handed out. */
  class IdCounter {
    var last: int

    constructor ()
      ensures last == 0
    {
      last := 0;
    }
  }

  class Entity {
    const id: int
    var pos: Vec
    var vel: Vec
    var acc: Vec
    var dt: real
    const sprite: Sprite

    function Kinematics(): Motion
      reads this
    {
      Motion(pos, vel, acc)
    }

    /** Each construction bumps the shared counter and takes its new
        value, so ids strictly increase; the sprite is moved onto `pos`. */
    constructor (ids: IdCounter, pos: Vec, vel: Vec, sprite: Sprite)
      modifies ids, sprite`pos
      ensures ids.last == old(ids.last) + 1 && id == ids.last
      ensures id > old(ids.last)
      ensures Kinematics() == Motion(pos, vel, Zero) && dt == 0.0
      ensures this.sprite == sprite && sprite.pos == pos
    {
      ids.last := ids.last + 1;
      id := ids.last;
      this.pos := pos;
      this.vel := vel;
      this.sprite := sprite;
      acc := Vec(0.0, 0.0);
      dt := 0.0;
      new;
      var _ := PosChanged();
    }

    /** `pos_changed`: keep the sprite on the entity's position. */
    method PosChanged() returns (self: Entity)
      modifies sprite`pos
      ensures self == this && sprite.pos == pos
    {
      sprite.pos := pos;
      self := this;
    }

    method SetPos(p: Vec) returns (self: Entity)
      modifies this`pos, sprite`pos
      ensures self == this && pos == p && sprite.pos == p
      ensures vel == old(vel) && acc == old(acc)
    {
      pos := p;
      self := PosChanged();
    }

    method Accelerate(a: Vec)
      modifies this`acc
      ensures Kinematics() == Accelerated(old(Kinematics()), a)
    {
      acc := Plus(acc, a);
    }

    method SetVel(v: Vec)
      modifies this`acc
      ensures Kinematics() == VelocityRequested(old(Kinematics()), v)
    {
      Accelerate(Minus(v, vel));
    }

    /** `tick_pos(dt)`: `limit_speed`, which runs between the two halves
        when `max_speed` is set, is not modelled. */
    method TickPos(dt: real)
      modifies this`pos, this`vel, this`acc, sprite`pos
      ensures Kinematics() == Integrated(old(Kinematics()), dt)
      ensures sprite.pos == pos
    {
      Damp();
      Advance(dt);
      var _ := PosChanged();
    }

    method Damp()
      modifies this`vel
      ensures Kinematics() == Damped(old(Kinematics()))
    {
      vel := Plus(vel, Times(acc, Scalar(0.99)));
    }

    method Advance(dt: real)
      modifies this`acc, this`pos
      ensures Kinematics() == Advanced(old(Kinematics()), dt)
    {
      acc := Vec(0.0, 0.0);
      pos := Plus(pos, Times(vel, Scalar(dt)));
    }

    /** `tick_cpu(dt)`: remember `dt` for later `tick()` calls and integrate. */
    method TickCpu(dt: real)
      modifies this`pos, this`vel, this`acc, this`dt, sprite`pos
      ensures this.dt == dt
      ensures Kinematics() == Integrated(old(Kinematics()), dt)
      ensures sprite.pos == pos
    {
      ghost var before := Kinematics();
      this.dt := dt;
      assert Kinematics() == before;
      TickPos(dt);
    }

    /** `tick()`: integrate again with the last recorded `dt`. */
    method Tick()
      modifies this`pos, this`vel, this`acc, sprite`pos
      ensures Kinematics() == Integrated(old(Kinematics()), dt)
      ensures sprite.pos == pos
    {
      TickPos(dt);
    }

    /** The `rect` property: the sprite's rectangle. */
    method GetRect() returns (r: Rect)
      ensures fresh(r) && r.size == sprite.size && r.Center() == sprite.pos
    {
      r := sprite.GetRect();
    }
  }
}
