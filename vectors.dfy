/** Godot's Vector2, and directions tagged with whether `.Normalized()` was applied. */
module Vectors {
  datatype Vec2 = Vec2(x: real, y: real)

  const Zero: Vec2 := Vec2(0.0, 0.0)

  predicate IsZero(v: Vec2)
  {
    v == Zero
  }

  function Add(a: Vec2, b: Vec2): Vec2
  {
    Vec2(a.x + b.x, a.y + b.y)
  }

  function Sub(a: Vec2, b: Vec2): Vec2
  {
    Vec2(a.x - b.x, a.y - b.y)
  }

  function Scale(v: Vec2, k: real): Vec2
  {
    Vec2(v.x * k, v.y * k)
  }

  /**
   * A direction as the source passes it on. Normalization is a float computation
   * (a square root), so the model keeps the vector and records that it was normalized.
   */
  datatype Direction = Raw(vector: Vec2) | Normalized(vector: Vec2)

  /** Vector2.Normalized(): idempotent, keeps the heading. */
  function Normalize(d: Direction): (r: Direction)
    ensures r.Normalized? && r.vector == d.vector
  {
    Normalized(d.vector)
  }

  /**
   * A body's velocity: stopped (Vector2.Zero), or a normalized heading times a speed
   * (`direction.Normalized() * speed`).
   */
  datatype Velocity = Stopped | Moving(heading: Direction, speed: real)

  /** `direction.Normalized() * speed`. */
  function Toward(direction: Vec2, speed: real): (v: Velocity)
    ensures v.Moving? && v.heading == Normalize(Raw(direction)) && v.speed == speed
  {
    Moving(Normalize(Raw(direction)), speed)
  }
}
