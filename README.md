# Keyboard Fighter: the player's frame-by-frame state machine

Keyboard Fighter is a small raylib game. A knight stands on a stage. Pressing
`i` puts it into input mode. In input mode, each correctly typed letter of a
random on-screen sequence adds one to the charge (`damage`). When the
input-mode timer runs out with a charge, the knight plays its hit. Holding `L`
or `H` makes it walk right or left.

This project models the game logic of `main.c` in Dafny. That covers:

- **Actor record.** The `Thing` record holds the state, counter, charge,
  typing cursor, facing, horizontal position and per-state durations.
- **Frame handlers.** `process_input`, `process_game_state`, `increment_game`
  and `set_state` are pure functions on the record (`Things`:
  `InputTransition`, `StateTransition`, `IncrementTransition`,
  `SetStateFields`). The same handlers are also imperative methods of a
  `Game` class that update the player's slot of the `things` array in place
  (`GameLoop`). Each method is proved equal to its function.
- **One frame of the main loop.** The loop runs input, then state logic, then
  drawing, then the timer. The model proves the invariant this order keeps.
- **Animation-table arithmetic.** This is the slot of a strip, the frame
  shown for a counter, the source rectangle of that frame, and the descriptor
  of a mirrored strip (`Animations`).
- **Typing buffer.** The model covers how the 500-character buffer is drawn
  from random numbers and the 5-character window shown above the player
  (`HitText`).
- **Duration conversion.** Millisecond durations become frames by integer
  division by `MS_PER_FRAME = 1000/60 = 16`. That gives idle 62, input mode
  18, hit 18 and walk 31 frames (`Config`).

The main invariant (`Thing.TickInvariant`) has five parts:

- The player is only ever idle, in input mode, hitting or walking.
- Each of those four states lasts at least one frame, so `draw_player`'s
  assertion that the duration is non-zero always holds.
- The counter never passes the duration of the current state.
- The charge is never negative.
- The typing cursor stays below 500.

Some behaviours of the code are modelled as written, and lemmas state them:

- When input mode expires with no charge, a correct key on that last frame
  still adds to the charge. The timer then returns the knight to idle and the
  charge is kept (`UnchargedInputExpiresKeepingLastKey`).
- In the frame that enters input mode, the `i` key is also checked against
  the buffer (`EnteringInputModeCountsTheKey`).
- Pressing `i` or holding a direction key interrupts a hit
  (`HitIsInterruptible`).
- While a direction key stays held and `i` is not typed, a walk keeps the
  direction it started with, even if only the opposite key is now held
  (`WalkKeepsDirection`). Typing `i` during a walk switches to input mode. If
  L or H is held in that same frame, a new walk starts at once, facing the
  way the held key says. Releasing both keys ends the walk.
- When a state expires, the counter is reset to 0 and then incremented in the
  same call, so it ends at 1.

Some of what `main.c` does differs from what the game's design suggests; the
model follows `main.c`:

- The frame index is not clamped. On the frame where the counter equals the
  duration, it is one past the last frame (`FrameIndexRange`).
- Strips are found by direct index arithmetic, not by a best-match search
  over attribute bitmasks.
- A hit is not protected from the input handler; input mode is, because
  `process_input` does nothing in input mode (main.c:429).
- The charge is cleared on the hit's last frame by the state logic, not by
  the timer.

## Model

| member | source | states |
|---|---|---|
| Config.DurationFrames | main.c:22-44 | a duration in frames is the largest whole number of 16 ms frames within the millisecond duration |
| Config.PlayerDurationsInFrames | main.c:22-44 | MS_PER_FRAME is 16 and the idle, input-mode, hit and walk durations are 62, 18, 18 and 31 frames |
| Config.WalkIncrementValue | main.c:45-46 | one walking frame moves 2.56 pixels |
| Things.InitPlayerFields | main.c:371-383 | init_player sets position x 400, state idle, facing right and the four reachable durations; other durations, counter, charge and cursor are kept; from a zeroed slot the result satisfies the tick invariant |
| Things.InputTransition | main.c:426-460 | input mode ignores input; otherwise 'i' enters input mode with counter 0; if not then walking, a held key starts a walk with counter 0 facing right for L, left for H (H wins); a walk with no key held becomes idle with counter 0; a walk with a key held is untouched; only state, counter and facing change; the tick invariant is kept |
| Things.StateTransition | main.c:308-357 | input mode at its duration with charge becomes hit with counter 0; otherwise a key equal to the expected character adds 1 to the charge and advances the cursor modulo 500, and a mismatch changes nothing; a hit clears the charge exactly on its last frame; a walk moves x one step forward or back by facing; other states are unchanged; the cursor stays below 500; the tick invariant is kept |
| Things.IncrementTransition | main.c:359-369 | at the duration the state becomes idle with counter 1; otherwise state unchanged and counter up by exactly 1; nothing else changes; the tick invariant is kept |
| Things.SetStateFields | main.c:144-149 | the actor enters the given state with counter 0 and every other field kept; entering a reachable state keeps the tick invariant |
| Things.TickTransition | main.c:485-502 | input, state logic, timer in loop order: cursor stays below 500, counter ends at least 1, kind and durations are unchanged, and the tick invariant is kept |
| Things.RunTicks | main.c:474-504 | the player after one loop frame per input: kind and durations unchanged, cursor below 500, and after at least one frame the counter is at least 1 |
| Things.RunTicksKeepsInvariant | main.c:474-504 | any number of frames keeps the tick invariant |
| Things.ReachableStatesFromStart | main.c:385-390 | from the initial player, for any keys, the state is idle, input mode, hit or walk; its duration is positive, the counter is within it and the cursor is below 500 |
| Things.TypingChargesOnMatch | main.c:325-329 | in input mode before expiry a correct key raises the charge by 1 and moves the cursor by 1 modulo 500, whatever keys are held |
| Things.TypingIgnoresMismatch | main.c:325-329 | in input mode a wrong key changes neither charge nor cursor |
| Things.ChargedInputStartsHit | main.c:318-324 | input mode at its duration with a charge starts the hit: after the frame the state is hit, the counter 1, and charge and cursor are unchanged |
| Things.UnchargedInputExpiresKeepingLastKey | main.c:316-369 | input mode at its duration with no charge and a correct key ends idle with counter 1 and charge 1 |
| Things.HitExpiryClearsCharge | main.c:332-339 | the last frame of a hit with no key ends idle with counter 1 and charge 0 |
| Things.HitIsInterruptible | main.c:429-454 | during a hit, 'i' switches to input mode and a held direction key to walk, each with counter 1 after the frame, and the charge is not lost |
| Things.EnteringInputModeCountsTheKey | main.c:485-500 | when 'i' is the expected character, the frame that enters input mode also counts it: input mode, counter 1, charge up by 1 |
| Things.WalkKeepsDirection | main.c:438-458 | a walk with a direction key held and without 'i' keeps its facing and moves one step, even if only the opposite key is held |
| Animations.GetAnimation | main.c:214-224 | the slot is state plus STATE_NUM per kind plus STATE_NUM when not facing right; it is below 36, its remainder mod 9 is the state and its quotient is the kind plus the facing |
| Animations.GetAnimationCollides | main.c:214-224 | the knight facing left and the demon facing right use the same slot for every state |
| Animations.GetAnimationLeavesLastThirdUnused | main.c:133 | every computed slot is below 27, so the last 9 of the 36 slots are never read |
| Animations.AnimationSlot | main.c:133 | the corrected slot is below 36; its remainder mod 9 is the state, its quotient by 18 is the kind, and its block parity is the facing |
| Animations.AnimationSlotInjective | main.c:133 | different states, kinds or facings never share a corrected slot |
| Animations.AnimationSlotMirror | main.c:279 | the left-facing slot is STATE_NUM past the right-facing one, where the loader writes the mirror |
| Animations.AnimationSlotAgreesForKnight | main.c:214-224 | for a knight the corrected slot equals get_animation's |
| Animations.FrameIndex | main.c:237 | the frame is the floor of the counter's share of the duration times the number of frames: frame * dur <= cnt * stages < (frame + 1) * dur |
| Animations.FrameIndexRange | main.c:235-237 | the drawn frame is at most the number of frames; below the duration it is a frame of the strip; at the duration it equals the number of frames, with no clamping |
| Animations.LastTickShowsLastFrame | main.c:235-237 | with no more frames than ticks, the counter one below the duration shows the last frame |
| Animations.FrameRect | main.c:172-180 | the rectangle has y 0, width twice the figure width and the texture's height; a frame of the strip lies within the strip |
| Animations.FrameRectAdvancesByStride | main.c:176 | consecutive frames are exactly offset_between_stages + figure_width apart |
| Animations.Mirror | main.c:274-285 | the mirror keeps every field except the anchor; the anchor is a size_t value and equals stride minus the anchor when it fits in the frame |
| Animations.MirrorTwice | main.c:274-285 | mirroring a descriptor twice gives it back |
| HitText.HitChar | main.c:293 | a cell drawn from a non-negative random number is a letter from 'a' to 'y' |
| HitText.HitCharCoversAToY | main.c:293 | every letter from 'a' to 'y' can be drawn |
| HitText.Window | main.c:189-191 | the shown text has exactly five characters, taken from the cursor on around the end of the buffer (with WindowStartsAtExpected and WindowScrolls) |
| HitText.WindowStartsAtExpected | main.c:188-191 | the first shown character is the one the next key is checked against |
| HitText.WindowScrolls | main.c:189-191 | moving the cursor by one modulo 500 scrolls the window by one character |
| GameLoop.KnightStrip | main.c:402-406 | a knight strip has the given height and frame count and a stride of 128 pixels; its anchor lies inside a frame, so its mirror's anchor is 128 - 32 without wrap-around |
| GameLoop.Game.constructor | main.c:385-416 | init_game: fresh tables, no key pressed, every actor slot but the player's zeroed, hit text drawn from the random numbers, the player in slot 1 as init_player leaves it, the knight's idle, hit, input-mode and walk strips (4, 3, 1 and 8 frames) in slots 0, 2, 1 and 4, their mirrors 9 slots further, every other animation slot zero; the game is ready |
| GameLoop.Game.LoadKnightStrips | main.c:403-406 | on a zeroed table the four loader calls leave exactly the four knight strips, their mirrors 9 slots further, and every other slot zero |
| GameLoop.Game.GenerateHitText | main.c:289-295 | cell i holds the letter drawn from the i-th random number, between 'a' and 'y' |
| GameLoop.Game.InitPlayer | main.c:371-383 | the slot becomes InitPlayerFields of its old value; other slots are unchanged |
| GameLoop.Game.InitAnimationsWithReverse | main.c:264-287 | slot idx gets the given descriptor, slot idx + STATE_NUM its mirror, and other slots are unchanged |
| GameLoop.Game.SetState | main.c:144-149 | the actor becomes SetStateFields of its old value; other slots are unchanged |
| GameLoop.Game.ProcessInput | main.c:426-460 | updates the player in place to InputTransition of its old value, keeps the game ready, and leaves other slots unchanged |
| GameLoop.Game.ProcessGameState | main.c:308-357 | updates the player in place to StateTransition of its old value against the buffer, keeps the game ready, and leaves other slots unchanged |
| GameLoop.Game.IncrementGame | main.c:359-369 | updates the player in place to IncrementTransition of its old value, keeps the game ready, and leaves other slots unchanged |
| GameLoop.Game.HitTextWindow | main.c:182-193 | the shown text is the five characters from the cursor modulo 500, then a NUL |
| GameLoop.Game.DrawPlayer | main.c:226-238 | the strip is looked up at get_animation's slot, which for the player equals the corrected slot; the duration is non-zero; the frame is the counter's share of the strip and the rectangle is that frame's; below the duration the frame is in the strip, one tick before expiry it is the last frame, and at expiry one past the last |
| GameLoop.Game.Tick | main.c:474-503 | one main-loop frame: stores the key, steps the player to TickTransition of its old value, shows the window at the cursor after the state logic, draws the frame and rectangle of the state after the state logic (within the strip before expiry), and keeps the game ready |

## Findings

| source | as written | input that shows it | evidently intended | confidence | as-written member | corrected member |
|---|---|---|---|---|---|---|
| main.c:214-224 | the slot is `state + kind*STATE_NUM`, plus `STATE_NUM` when not facing right | a knight facing left and a demon facing right in the same state get the same slot (9 for idle) | two blocks of `STATE_NUM` per kind, `state + kind*2*STATE_NUM` plus `STATE_NUM` when facing left, which is what the 36-slot table (main.c:133) provides for | medium, not executed; only the knight is ever drawn, and for it both formulas agree | Animations.GetAnimationCollides | Animations.AnimationSlotInjective |

`DrawPlayer` looks strips up at `get_animation`'s slot, as `draw_player`
does. It proves that, for the player (always a knight), this slot equals the
corrected `AnimationSlot`. The readiness predicate, which says that the
player's strips are loaded, is stated over the corrected slots.

## Left out

- Rendering and assets are not modelled: window creation, image loading,
  cropping and flipping, textures, `DrawTextureRec`, `DrawText`,
  `MeasureText`, `DrawLine`, `DrawCircle`, `draw_stage`, `TraceLog` and
  `printf`. A texture is represented only by its height, which is a parameter.
  Pixels are not modelled, so neither is the order of frames inside a flipped
  image.
- The text's screen position and the texture position in `draw_player`
  (main.c:194-197, 242-246) are drawing coordinates and are not modelled.
- Input polling is not modelled. The typed character and the L and H key
  states are parameters of each frame. The narrowing of `GetCharPressed`'s int
  code point into the `char` field `key_pressed` is not modelled: the frame
  receives the stored character.
- `rand` and `srand(time(0))` are replaced by a given sequence of
  non-negative numbers.
- Floating point is not modelled exactly. Position x is an exact real and the
  walk step is exactly 2.56, so float rounding of sums is not captured.
- The orientation vector is modelled as a `facingRight` flag, because the code
  only ever sets (1, 0) or (-1, 0). A zeroed slot's (0, 0) counts as not facing
  right, as `is_vec2_equal` would decide. `is_vec2_equal` has no separate
  member.
- FrameIndex: the float expression `(float)cnt/(float)dur * stages` is
  modelled as exact integer floor division. Float rounding could make the
  result one lower when the exact value is a whole number below the frame
  count.
- Thing fields that the logic never reads are left out: `traits`,
  `animations_start_idx`, `health`, `position.y`, `walk_speed`, `hitbox` and
  `reach`.
- The other 1023 actor slots are only carried along unchanged.
- Integer widths are not modelled for `damage` (int) or `state_cnt` (size_t).
  Both are unbounded here. The counter stays at or below 62. The charge would
  overflow only after more than 2^31 correct keys.
- Size_t wrap-around is modelled only for the mirrored anchor subtraction. The
  rectangle's x offset is unbounded.
- The `Player` struct and its helpers `walk_start`, `walk_stop` and
  `enter_input_mode` (main.c:151-170, 297-304) are not modelled. Nothing in
  `main` calls them.
- `init_animation_from_texture` (main.c:253-262) is not modelled. It is never
  called.
- The loop's window handling is not modelled: `WindowShouldClose`,
  `BeginDrawing`, `EndDrawing` and the unused `framesCounter`.
- nob.c is not part of this model. It is a build driver that runs the C
  compiler.
