/** The background particles of the page (script.js:11-29): each frame a particle moves
    by its speed and wraps around the canvas edges. Drawing, and creating particles from
    Math.random, are not part of this model. */
module Particles {

  /** One coordinate after the two wrap checks of update(): past the far edge it restarts
      at 0, and below 0 it restarts at the far edge. */
  function Wrap(v: real, limit: real): real {
    var w := if v > limit then 0.0 else v;
    if w < 0.0 then limit else w
  }

  /** Whatever the position and the speed, a wrapped coordinate is on the canvas, and a
      coordinate already on the canvas is left where it is. */
  lemma WrapLandsOnCanvas(v: real, limit: real)
    requires limit >= 0.0
    ensures 0.0 <= Wrap(v, limit) <= limit
    ensures 0.0 <= v <= limit ==> Wrap(v, limit) == v
    ensures v > limit ==> Wrap(v, limit) == 0.0
    ensures v < 0.0 ==> Wrap(v, limit) == limit
  {
  }

  class Particle {
    var x: real
    var y: real
    const speedX: real
    const speedY: real

    constructor (x: real, y: real, speedX: real, speedY: real)
      ensures this.x == x && this.y == y && this.speedX == speedX && this.speedY == speedY
    {
      this.x, this.y := x, y;
      this.speedX, this.speedY := speedX, speedY;
    }

    /** update(), on a canvas `width` by `height` pixels (canvas sizes are whole numbers
        of pixels, never negative). */
    method Update(width: nat, height: nat)
      modifies this
      ensures x == Wrap(old(x) + speedX, width as real)
      ensures y == Wrap(old(y) + speedY, height as real)
      ensures 0.0 <= x <= width as real && 0.0 <= y <= height as real
    {
      x := x + speedX;
      y := y + speedY;
      if x > width as real {
        x := 0.0;
      }
      if x < 0.0 {
        x := width as real;
      }
      if y > height as real {
        y := 0.0;
      }
      if y < 0.0 {
        y := height as real;
      }
    }
  }
}
