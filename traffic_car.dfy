/**
 * Traffic Dash's cars: a car spawned left of x = 200 drives right, any other
 * drives left, at 300 pixels per second; its hitbox is the half-height shrink of
 * its image rectangle, and it is removed once its rect leaves -200 < x < 3400.
 * The random car image only fixes the rect's size, which is a parameter.
 */
module TrafficCar {
  import opened Common
  import opened Geometry

  const CarSpeed: real := 300.0
  const RightboundBefore: int := 200
  const DespawnLeft: int := -200
  const DespawnRight: int := 3400

  /** The x part of the direction chosen at spawn: the other part is always 0. */
  function Heading(spawnX: int): (d: int)
    ensures d == 1 || d == -1
    ensures d == 1 <==> spawnX < RightboundBefore
  {
    if spawnX < RightboundBefore then 1 else -1
  }

  /** The despawn test, applied to the rect's left edge after each update. */
  predicate OnRoad(r: Rect)
  {
    DespawnLeft < r.x < DespawnRight
  }

  /** Where update puts the hitbox and rect for a float position: both centred on
      the rounded position. The drawn centre is within half a pixel of it. */
  function TrackedRect(r: Rect, px: real, py: real): (c: Rect)
    ensures c.w == r.w && c.h == r.h
    ensures Abs(c.CenterX() as real - px) <= 0.5 && Abs(c.CenterY() as real - py) <= 0.5
  {
    r.WithCenter(RoundHalfEven(px), RoundHalfEven(py))
  }

  class Car {
    var posX: real
    var posY: real
    const dirX: int
    var rect: Rect
    var hitbox: Rect
    /** False once the car has been killed (removed from its sprite groups). */
    var alive: bool

    /** Car((x, y), groups) with an image of size w by h. */
    constructor (x: int, y: int, w: nat, h: nat)
      ensures rect == CenteredAt(x, y, w, h) && hitbox == HalfHeightHitbox(rect)
      ensures posX == x as real && posY == y as real
      ensures dirX == Heading(x) && alive
    {
      rect := CenteredAt(x, y, w, h);
      hitbox := HalfHeightHitbox(CenteredAt(x, y, w, h));
      posX := x as real;
      posY := y as real;
      dirX := Heading(x);
      alive := true;
    }

    /** Car.update: advance along the heading, re-centre the hitbox then the rect on
        the rounded position, and kill the car once it leaves the road. */
    method Update(dt: real)
      requires alive
      modifies this`posX, this`hitbox, this`rect, this`alive
      ensures posX == old(posX) + dirX as real * CarSpeed * dt && posY == old(posY)
      ensures hitbox == TrackedRect(old(hitbox), posX, posY)
      ensures rect == old(rect).WithCenter(hitbox.CenterX(), hitbox.CenterY())
      ensures Abs(rect.CenterX() as real - posX) <= 0.5 && Abs(rect.CenterY() as real - posY) <= 0.5
      ensures alive <==> OnRoad(rect)
    {
      posX := posX + dirX as real * CarSpeed * dt;
      hitbox := hitbox.WithCenter(RoundHalfEven(posX), RoundHalfEven(posY));
      rect := rect.WithCenter(hitbox.CenterX(), hitbox.CenterY());
      if !(DespawnLeft < rect.x < DespawnRight) {
        alive := false;
      }
    }
  }
}
