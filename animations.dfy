/** The animation table: which slot an actor's sprite strip is looked up
    in, which frame of the strip is shown for the actor's counter, the
    source rectangle of that frame, and the descriptor of a horizontally
    mirrored strip. */
module Animations {
  import opened Config
  import opened Things

  /** Size of the animation table: a state, a kind and two facings. */
  const ANIMATION_COUNT: nat := STATE_NUM * THING_KIND_NUM * 2

  /** A sprite strip: the height of its texture (the image itself is not
      modelled), the number of frames, the pixel offset of the first frame,
      the gap and figure width that make up the distance between frames, and
      the x of the actor's anchor inside a frame. */
  datatype Animation = Animation(
    textureHeight: nat,
    stagesNum: nat,
    startOffsetPixel: nat,
    offsetBetweenStages: nat,
    figureWidth: nat,
    playerPositionOffset: nat)
  {
    /** Distance in pixels from one frame of the strip to the next. */
    function Stride(): (w: nat)
    {
      offsetBetweenStages + figureWidth
    }
  }

  /** A slot of the zero-initialised table. */
  const ZERO_ANIMATION: Animation := Animation(0, 0, 0, 0, 0, 0)

  /** A source rectangle in pixels. */
  datatype Rect = Rect(x: nat, y: nat, width: nat, height: nat)

  /** The table index `get_animation` computes: the state, plus one block of
      STATE_NUM per kind, plus one more block when the actor does not face
      right. */
  function GetAnimation(s: State, k: ThingKind, facingRight: bool): (idx: nat)
    ensures idx < ANIMATION_COUNT
    ensures idx % STATE_NUM == s.Ordinal()
    ensures idx / STATE_NUM == k.Ordinal() + (if facingRight then 0 else 1)
  {
    s.Ordinal() + k.Ordinal() * STATE_NUM + (if facingRight then 0 else STATE_NUM)
  }

  /** As written, the left-facing block of a knight is the right-facing
      block of a demon. */
  lemma GetAnimationCollides(s: State)
    ensures GetAnimation(s, Knight, false) == GetAnimation(s, Demon, true)
  {
  }

  /** As written, the last third of the table is never looked up. */
  lemma GetAnimationLeavesLastThirdUnused(s: State, k: ThingKind, facingRight: bool)
    ensures GetAnimation(s, k, facingRight) < 3 * STATE_NUM < ANIMATION_COUNT
  {
  }

  /** The table index with two blocks of STATE_NUM per kind, one per facing,
      which is the layout the table's size provides for. */
  function AnimationSlot(s: State, k: ThingKind, facingRight: bool): (idx: nat)
    ensures idx < ANIMATION_COUNT
    ensures idx % STATE_NUM == s.Ordinal()
    ensures idx / (2 * STATE_NUM) == k.Ordinal()
    ensures !facingRight <==> (idx / STATE_NUM) % 2 == 1
  {
    s.Ordinal() + k.Ordinal() * 2 * STATE_NUM + (if facingRight then 0 else STATE_NUM)
  }

  /** Different states, kinds or facings never share a slot. */
  lemma AnimationSlotInjective(s1: State, k1: ThingKind, f1: bool, s2: State, k2: ThingKind, f2: bool)
    requires AnimationSlot(s1, k1, f1) == AnimationSlot(s2, k2, f2)
    ensures s1 == s2 && k1 == k2 && f1 == f2
  {
    var i := AnimationSlot(s1, k1, f1);
    assert s1.Ordinal() == s2.Ordinal() && k1.Ordinal() == k2.Ordinal();
  }

  /** The mirrored strip of a slot lies STATE_NUM slots further, where the
      loader writes it. */
  lemma AnimationSlotMirror(s: State, k: ThingKind)
    ensures AnimationSlot(s, k, false) == AnimationSlot(s, k, true) + STATE_NUM
  {
  }

  /** For a knight the corrected slot is the one `get_animation` computes. */
  lemma AnimationSlotAgreesForKnight(s: State, facingRight: bool)
    ensures AnimationSlot(s, Knight, facingRight) == GetAnimation(s, Knight, facingRight)
  {
  }

  /** The frame of a strip shown when the counter is at `cnt` out of `dur`:
      the elapsed fraction of the duration times the number of frames,
      rounded down. It is not clamped to the last frame. */
  function FrameIndex(cnt: nat, dur: nat, stages: nat): (f: nat)
    requires dur > 0
    ensures f * dur <= cnt * stages < (f + 1) * dur
  {
    cnt * stages / dur
  }

  /** Multiplying by a non-negative number keeps the order. */
  lemma MulMono(x: int, y: int, d: int)
    requires x <= y && d >= 0
    ensures x * d <= y * d
  {
    assert y * d == x * d + (y - x) * d;
  }

  /** A positive factor can be cancelled from a strict comparison. */
  lemma MulStrictCancel(x: int, y: int, d: int)
    requires d > 0
    ensures x * d < y * d ==> x < y
  {
    if y <= x {
      MulMono(y, x, d);
    }
  }

  /** A positive factor can be cancelled from a comparison. */
  lemma MulCancel(x: int, y: int, d: int)
    requires d > 0
    ensures x * d <= y * d ==> x <= y
  {
    if y < x {
      MulMono(y + 1, x, d);
    }
  }

  /** Division is determined by quotient and remainder. */
  lemma DivUnique(a: nat, d: nat, q: nat, r: nat)
    requires d > 0 && a == q * d + r && r < d
    ensures a / d == q
  {
    var q', r' := a / d, a % d;
    assert (q - q') * d == r' - r;
    assert (q' - q) * d == r - r';
    MulStrictCancel(q - q', 1, d);
    MulStrictCancel(q' - q, 1, d);
  }

  /** Up to the end of the state the frame is at most the number of frames;
      before the end it is a frame of the strip; on the frame where the
      counter equals the duration it is one past the last frame. */
  lemma {:induction false} FrameIndexRange(cnt: nat, dur: nat, stages: nat)
    requires 0 < dur && cnt <= dur
    ensures FrameIndex(cnt, dur, stages) <= stages
    ensures cnt < dur && stages > 0 ==> FrameIndex(cnt, dur, stages) < stages
    ensures cnt == dur ==> FrameIndex(cnt, dur, stages) == stages
  {
    var f := FrameIndex(cnt, dur, stages);
    assert f * dur <= cnt * stages;
    MulMono(cnt, dur, stages);
    MulCancel(f, stages, dur);
    if cnt < dur {
      MulMono(cnt + 1, dur, stages);
      MulStrictCancel(f, stages, dur);
    }
    if cnt == dur {
      DivUnique(cnt * stages, dur, stages, 0);
    }
  }

  /** When a strip has no more frames than the state has ticks, the last
      tick before expiry shows the last frame. */
  lemma {:induction false} LastTickShowsLastFrame(dur: nat, stages: nat)
    requires 0 < stages <= dur
    ensures FrameIndex(dur - 1, dur, stages) == stages - 1
  {
    assert (dur - 1) * stages == (stages - 1) * dur + (dur - stages);
    DivUnique((dur - 1) * stages, dur, stages - 1, dur - stages);
  }

  /** The source rectangle of a frame: frames are laid out one stride apart
      from the start offset, the rectangle is two figure widths wide and as
      high as the texture; a frame of the strip lies inside the strip. */
  function FrameRect(a: Animation, frame: nat): (r: Rect)
    ensures r.y == 0 && r.width == 2 * a.figureWidth && r.height == a.textureHeight
    ensures frame < a.stagesNum ==> r.x + a.Stride() <= a.startOffsetPixel + a.stagesNum * a.Stride()
  {
    assert frame < a.stagesNum ==> (frame + 1) * a.Stride() <= a.stagesNum * a.Stride();
    Rect(a.startOffsetPixel + frame * (a.offsetBetweenStages + a.figureWidth), 0, a.figureWidth * 2, a.textureHeight)
  }

  /** Consecutive frames are exactly one stride apart. */
  lemma FrameRectAdvancesByStride(a: Animation, frame: nat)
    ensures FrameRect(a, frame + 1).x == FrameRect(a, frame).x + a.Stride()
  {
  }

  /** The descriptor of the horizontally flipped strip: the same frame
      geometry, with the anchor measured from the other side of a frame
      (`size_t` subtraction, so it wraps when the anchor lies beyond the
      frame). */
  function Mirror(a: Animation): (m: Animation)
    ensures m == a.(playerPositionOffset := m.playerPositionOffset)
    ensures m.playerPositionOffset < SIZE_T_MODULUS
    ensures a.playerPositionOffset <= a.Stride() < SIZE_T_MODULUS ==>
              m.playerPositionOffset == a.Stride() - a.playerPositionOffset
  {
    var width := (a.offsetBetweenStages + a.figureWidth) % SIZE_T_MODULUS;
    a.(playerPositionOffset := (width - a.playerPositionOffset) % SIZE_T_MODULUS)
  }

  /** Mirroring a descriptor twice gives it back. */
  lemma MirrorTwice(a: Animation)
    requires a.playerPositionOffset < SIZE_T_MODULUS
    ensures Mirror(Mirror(a)) == a
  {
    var w := (a.offsetBetweenStages + a.figureWidth) % SIZE_T_MODULUS;
    var p := a.playerPositionOffset;
    var q := Mirror(a).playerPositionOffset;
    if p <= w {
      assert q == w - p;
    } else {
      assert q == w - p + SIZE_T_MODULUS;
      assert (w - q) % SIZE_T_MODULUS == (p - SIZE_T_MODULUS) % SIZE_T_MODULUS == p;
    }
  }
}
