/** Compile-time constants of the game and the conversion of millisecond
    durations into whole frames at the target frame rate. */
module Config {

  /** Target frame rate of the main loop. */
  const FRAMERATE: nat := 60

  /** Milliseconds per frame, by integer division: 1000 / 60 == 16 (not 16.67). */
  const MS_PER_FRAME: nat := 1000 / FRAMERATE

  /** Width of the stage in pixels (`800 * 1`). */
  const SCREEN_WIDTH: nat := 800

  /** Number of slots of the entity table. */
  const MAX_THINGS: nat := 1024

  /** Length of the shared buffer of characters to type. */
  const HIT_TEXT_CAPACITY: nat := 500

  /** Number of characters of the typing buffer shown above the player. */
  const RENDER_TEXT_SIZE: nat := 5

  /** Nominal state durations in milliseconds (the hit duration is the float
      literal 300.0, cast to int before the division). */
  const IDLE_DURATION_MS: nat := 1000
  const INPUT_MODE_DURATION_MS: nat := 300
  const HIT_DURATION_MS: nat := 300
  const WALK_ANIMATION_DURATION_MS: nat := 500

  /** Number of frames in each sprite strip of the knight. */
  const IDLE_ANIMATION_FRAMES: nat := 4
  const INPUT_ANIMATION_FRAMES: nat := 1
  const HIT_ANIMATION_FRAMES: nat := 3
  const WALK_ANIMATION_FRAMES: nat := 8

  /** Sprite geometry of the knight, in pixels. */
  const KNIGHT_FIGURE_WIDTH_PX: nat := 64
  const KNIGHT_FIGURE_OFFSET: nat := 64
  const KNIGHT_PLAYER_OFFSET: nat := 32

  /** Walking speed in percent of the stage per millisecond. */
  const WALK_SPEED_PERC_PER_MS: real := 0.02

  /** Horizontal distance covered by one frame of walking, in pixels
      (16 ms * 0.02 % * 800 px = 2.56 px), as an exact real. */
  const WALK_INCREMENT_PIXEL_PER_FRAME: real :=
    (MS_PER_FRAME as real * WALK_SPEED_PERC_PER_MS / 100.0) * SCREEN_WIDTH as real

  /** Values of `size_t` are taken modulo this number. */
  const SIZE_T_MODULUS: nat := 0x1_0000_0000_0000_0000

  /** A duration in milliseconds expressed in whole frames: the largest
      number of frames whose length does not exceed the duration. */
  function DurationFrames(ms: nat): (frames: nat)
    ensures frames * MS_PER_FRAME <= ms < (frames + 1) * MS_PER_FRAME
  {
    ms / MS_PER_FRAME
  }

  /** The four durations the player is given, in frames. */
  lemma PlayerDurationsInFrames()
    ensures MS_PER_FRAME == 16
    ensures DurationFrames(IDLE_DURATION_MS) == 62
    ensures DurationFrames(INPUT_MODE_DURATION_MS) == 18
    ensures DurationFrames(HIT_DURATION_MS) == 18
    ensures DurationFrames(WALK_ANIMATION_DURATION_MS) == 31
  {
  }

  /** One frame of walking moves the player 2.56 pixels. */
  lemma WalkIncrementValue()
    ensures WALK_INCREMENT_PIXEL_PER_FRAME == 2.56
  {
  }
}
