/** The animation frame clock and the frame actually drawn. */
module Animation {
  import opened Content

  /** A frame is due only when strictly more than `speed` ms have passed since the last one. */
  predicate FrameDue(timestamp: real, lastFrameTime: real, speed: real)
  {
    timestamp - lastFrameTime > speed
  }

  /**
   * The next frame of a clip with `frames` frames: one further on, wrapping
   * to the first frame after the last. A frame left over from a clip up to
   * twice as long is counted on and then brought back by one clip length,
   * and the last frame of such a clip wraps to the first frame.
   */
  function NextFrame(current: nat, frames: nat): (f: nat)
    requires frames > 0
    ensures f < frames
    ensures current + 1 < frames ==> f == current + 1
    ensures current + 1 == frames ==> f == 0
    ensures frames <= current + 1 < 2 * frames ==> f == current + 1 - frames
    ensures current + 1 == 2 * frames ==> f == 0
  {
    (current + 1) % frames
  }

  /** The frame after `n` ticks of the clock. */
  function FrameAfter(start: nat, frames: nat, n: nat): nat
    requires frames > 0
    decreases n
  {
    if n == 0 then start else NextFrame(FrameAfter(start, frames, n - 1), frames)
  }

  /** Division by a positive modulus has one quotient and one remainder. */
  lemma DivModUnique(b: int, m: int, q: int, r: int)
    requires m > 0 && 0 <= r < m && b == q * m + r
    ensures b % m == r && b / m == q
  {
    var q', r' := b / m, b % m;
    assert b == q' * m + r';
    assert (q - q') * m == r' - r;
    if q - q' >= 1 {
      assert false;
    } else if q - q' <= -1 {
      assert false;
    }
  }

  /** Counting on by one commutes with taking the remainder. */
  lemma ModSucc(a: nat, m: nat)
    requires m > 0
    ensures (a % m + 1) % m == (a + 1) % m
  {
    var q, r := a / m, a % m;
    DivModUnique(a, m, q, r);
    if r + 1 < m {
      DivModUnique(r + 1, m, 0, r + 1);
      DivModUnique(a + 1, m, q, r + 1);
    } else {
      assert (q + 1) * m == q * m + m;
      DivModUnique(r + 1, m, 1, 0);
      DivModUnique(a + 1, m, q + 1, 0);
    }
  }

  /**
   * The clip loops: from a frame of the clip, n ticks of the clock land on
   * the frame n further on, counted round the clip.
   */
  lemma {:induction false} FrameAfterLoops(start: nat, frames: nat, n: nat)
    requires start < frames
    ensures FrameAfter(start, frames, n) == (start + n) % frames
  {
    if n == 0 {
      DivModUnique(start, frames, 0, start);
    } else {
      FrameAfterLoops(start, frames, n - 1);
      ModSucc(start + n - 1, frames);
    }
  }

  /** After as many ticks as the clip has frames, the clock is back where it started. */
  lemma FrameAfterFullLoop(start: nat, frames: nat)
    requires start < frames
    ensures FrameAfter(start, frames, frames) == start
  {
    FrameAfterLoops(start, frames, frames);
    DivModUnique(start + frames, frames, 1, start);
  }

  /**
   * The frame drawn for the player: the current frame when the clip has it,
   * otherwise the clip's last frame; so always a frame of the clip, and
   * never later than the current frame.
   */
  function RenderFrame(current: nat, state: AnimState): (f: nat)
    ensures f < ClipOf(state).frames
    ensures f <= current
    ensures current < ClipOf(state).frames ==> f == current
    ensures current >= ClipOf(state).frames ==> f == ClipOf(state).frames - 1
  {
    var maxFrame := ClipOf(state).frames - 1;
    if current < maxFrame then current else maxFrame
  }
}
