/** The game context and its main loop: the table of actors, the animation
    table and the typing buffer, the handlers that update the player in
    place, the two drawing computations and one frame of the loop. */
module GameLoop {
  import opened Config
  import opened Things
  import opened Animations
  import opened HitText

  /** Both strips of a reachable state are loaded in the table `anims` and
      have at least one and at most as many frames as the state lasts for
      player `p`. */
  ghost predicate StripsLoaded(p: Thing, anims: seq<Animation>, s: State)
    requires |anims| == ANIMATION_COUNT
  {
    && 0 < anims[AnimationSlot(s, Knight, true)].stagesNum <= p.DurOf(s)
    && 0 < anims[AnimationSlot(s, Knight, false)].stagesNum <= p.DurOf(s)
  }

  /** The player `p`, a knight, keeps the tick invariant and the strips of
      the four reachable states are loaded. */
  ghost predicate PlayerReady(p: Thing, anims: seq<Animation>)
    requires |anims| == ANIMATION_COUNT
  {
    && p.TickInvariant()
    && p.kind == Knight
    && StripsLoaded(p, anims, Idle) && StripsLoaded(p, anims, InputMode)
    && StripsLoaded(p, anims, Hit) && StripsLoaded(p, anims, Walk)
  }

  /** A step that keeps the tick invariant, the kind and the durations
      keeps the player ready. */
  lemma PlayerReadyKept(t: Thing, r: Thing, anims: seq<Animation>)
    requires |anims| == ANIMATION_COUNT && PlayerReady(t, anims)
    requires r.TickInvariant() && r.kind == t.kind && r.stateDur == t.stateDur
    ensures PlayerReady(r, anims)
  {
  }

  /** The descriptor `init_game` loads for a knight strip of the given
      texture height and frame count: frames start at the left edge, one
      figure width plus one figure offset apart, with the anchor 32 pixels
      into a frame. */
  function KnightStrip(textureHeight: nat, stagesNum: nat): (a: Animation)
    ensures a.stagesNum == stagesNum && a.textureHeight == textureHeight
    ensures a.Stride() == KNIGHT_FIGURE_OFFSET + KNIGHT_FIGURE_WIDTH_PX
    ensures a.playerPositionOffset <= a.Stride()
    ensures Mirror(a).playerPositionOffset == a.Stride() - KNIGHT_PLAYER_OFFSET
  {
    Animation(textureHeight, stagesNum, 0, KNIGHT_FIGURE_OFFSET, KNIGHT_FIGURE_WIDTH_PX, KNIGHT_PLAYER_OFFSET)
  }

  class Game {
    var things: array<Thing>
    var animations: array<Animation>
    var hitText: array<char>
    var keyPressed: char
    var playerIdx: nat

    /** The tables have their declared sizes and the player is in the table. */
    ghost predicate Valid()
      reads this
    {
      && things.Length == MAX_THINGS
      && animations.Length == ANIMATION_COUNT
      && hitText.Length == HIT_TEXT_CAPACITY
      && playerIdx < MAX_THINGS
    }

    /** What holds between frames: the player is ready to be stepped and
        drawn with the loaded table. */
    ghost predicate Ready()
      reads this, things, animations
    {
      Valid() && PlayerReady(things[playerIdx], animations[..])
    }

    /** `init_game`: a zeroed context, a freshly drawn typing buffer, the
        player in slot 1 and the knight's four strips with their mirrors.
        `rands` are the successive results of the random generator and the
        heights are those of the idle, attack and walk images. */
    constructor (rands: seq<nat>, idleHeight: nat, attackHeight: nat, walkHeight: nat)
      requires |rands| >= HIT_TEXT_CAPACITY
      ensures Ready()
      ensures fresh(things) && fresh(animations) && fresh(hitText)
      ensures keyPressed == '\0'
      ensures playerIdx == 1 && things[playerIdx] == InitPlayerFields(ZERO_THING)
      ensures forall j :: 0 <= j < MAX_THINGS && j != playerIdx ==> things[j] == ZERO_THING
      ensures forall i :: 0 <= i < HIT_TEXT_CAPACITY ==> hitText[i] == HitChar(rands[i])
      ensures animations[Idle.Ordinal()] == KnightStrip(idleHeight, IDLE_ANIMATION_FRAMES)
      ensures animations[Hit.Ordinal()] == KnightStrip(attackHeight, HIT_ANIMATION_FRAMES)
      ensures animations[InputMode.Ordinal()] == KnightStrip(attackHeight, INPUT_ANIMATION_FRAMES)
      ensures animations[Walk.Ordinal()] == KnightStrip(walkHeight, WALK_ANIMATION_FRAMES)
      ensures forall s: State :: s.Reachable() ==>
                animations[s.Ordinal() + STATE_NUM] == Mirror(animations[s.Ordinal()])
      ensures forall j :: 0 <= j < ANIMATION_COUNT && j !in {0, 1, 2, 4, 9, 10, 11, 13} ==>
                animations[j] == ZERO_ANIMATION
    {
      things := new Thing[MAX_THINGS](_ => ZERO_THING);
      animations := new Animation[ANIMATION_COUNT](_ => ZERO_ANIMATION);
      hitText := new char[HIT_TEXT_CAPACITY](_ => '\0');
      keyPressed := '\0';
      playerIdx := 0;
      new;
      GenerateHitText(rands);
      playerIdx := 1;
      InitPlayer(1);
      LoadKnightStrips(idleHeight, attackHeight, walkHeight);
      PlayerDurationsInFrames();
      ghost var anims := animations[..];
      assert anims[0].stagesNum == anims[9].stagesNum == IDLE_ANIMATION_FRAMES;
      assert anims[1].stagesNum == anims[10].stagesNum == INPUT_ANIMATION_FRAMES;
      assert anims[2].stagesNum == anims[11].stagesNum == HIT_ANIMATION_FRAMES;
      assert anims[4].stagesNum == anims[13].stagesNum == WALK_ANIMATION_FRAMES;
      assert PlayerReady(things[playerIdx], anims);
    }

    /** The four loader calls of `init_game` on a zeroed table: the idle,
        hit, input-mode and walk strips of the knight in the slots of their
        states, each mirror STATE_NUM slots further, every other slot zero.
        The input-mode and hit strips are both cut from the attack image. */
    method LoadKnightStrips(idleHeight: nat, attackHeight: nat, walkHeight: nat)
      requires Valid()
      requires forall j :: 0 <= j < ANIMATION_COUNT ==> animations[j] == ZERO_ANIMATION
      modifies animations
      ensures animations[Idle.Ordinal()] == KnightStrip(idleHeight, IDLE_ANIMATION_FRAMES)
      ensures animations[Hit.Ordinal()] == KnightStrip(attackHeight, HIT_ANIMATION_FRAMES)
      ensures animations[InputMode.Ordinal()] == KnightStrip(attackHeight, INPUT_ANIMATION_FRAMES)
      ensures animations[Walk.Ordinal()] == KnightStrip(walkHeight, WALK_ANIMATION_FRAMES)
      ensures forall s: State :: s.Reachable() ==>
                animations[s.Ordinal() + STATE_NUM] == Mirror(animations[s.Ordinal()])
      ensures forall j :: 0 <= j < ANIMATION_COUNT && j !in {0, 1, 2, 4, 9, 10, 11, 13} ==>
                animations[j] == ZERO_ANIMATION
    {
      InitAnimationsWithReverse(Idle.Ordinal(), idleHeight, IDLE_ANIMATION_FRAMES, 0,
                                KNIGHT_FIGURE_OFFSET, KNIGHT_FIGURE_WIDTH_PX, KNIGHT_PLAYER_OFFSET);
      InitAnimationsWithReverse(Hit.Ordinal(), attackHeight, HIT_ANIMATION_FRAMES, 0,
                                KNIGHT_FIGURE_OFFSET, KNIGHT_FIGURE_WIDTH_PX, KNIGHT_PLAYER_OFFSET);
      InitAnimationsWithReverse(InputMode.Ordinal(), attackHeight, INPUT_ANIMATION_FRAMES, 0,
                                KNIGHT_FIGURE_OFFSET, KNIGHT_FIGURE_WIDTH_PX, KNIGHT_PLAYER_OFFSET);
      InitAnimationsWithReverse(Walk.Ordinal(), walkHeight, WALK_ANIMATION_FRAMES, 0,
                                KNIGHT_FIGURE_OFFSET, KNIGHT_FIGURE_WIDTH_PX, KNIGHT_PLAYER_OFFSET);
    }

    /** `generate_hit_text`: cell i receives the letter drawn from the i-th
        random number. */
    method GenerateHitText(rands: seq<nat>)
      requires Valid() && |rands| >= HIT_TEXT_CAPACITY
      modifies hitText
      ensures forall i :: 0 <= i < HIT_TEXT_CAPACITY ==> hitText[i] == HitChar(rands[i])
      ensures forall i :: 0 <= i < HIT_TEXT_CAPACITY ==> 'a' <= hitText[i] <= 'y'
    {
      for i := 0 to HIT_TEXT_CAPACITY
        invariant forall k :: 0 <= k < i ==> hitText[k] == HitChar(rands[k])
      {
        hitText[i] := (rands[i] % 25 + 97) as char;
      }
    }

    /** `init_player`: sets the player fields of slot `idx`. */
    method InitPlayer(idx: nat)
      requires Valid() && idx < MAX_THINGS
      modifies things
      ensures things[idx] == InitPlayerFields(old(things[idx]))
      ensures forall j :: 0 <= j < MAX_THINGS && j != idx ==> things[j] == old(things[j])
    {
      var t := things[idx];
      things[idx] := t.(x := (SCREEN_WIDTH / 2) as real, state := Idle, facingRight := true);
      things[idx] := things[idx].(stateDur := things[idx].stateDur[Idle.Ordinal() := DurationFrames(IDLE_DURATION_MS)]);
      things[idx] := things[idx].(stateDur := things[idx].stateDur[InputMode.Ordinal() := DurationFrames(INPUT_MODE_DURATION_MS)]);
      things[idx] := things[idx].(stateDur := things[idx].stateDur[Hit.Ordinal() := DurationFrames(HIT_DURATION_MS)]);
      things[idx] := things[idx].(stateDur := things[idx].stateDur[Walk.Ordinal() := DurationFrames(WALK_ANIMATION_DURATION_MS)]);
    }

    /** `init_animations_from_image_with_reverse`, descriptor fields only:
        slot `idx` gets the given strip, slot `idx + STATE_NUM` its mirror. */
    method InitAnimationsWithReverse(idx: nat, textureHeight: nat, stagesNum: nat, startOffsetPixel: nat,
                                     offsetBetweenStages: nat, figureWidth: nat, playerPositionOffset: nat)
      requires Valid() && idx + STATE_NUM < ANIMATION_COUNT
      modifies animations
      ensures animations[idx] == Animation(textureHeight, stagesNum, startOffsetPixel,
                                           offsetBetweenStages, figureWidth, playerPositionOffset)
      ensures animations[idx + STATE_NUM] == Mirror(animations[idx])
      ensures forall j :: 0 <= j < ANIMATION_COUNT && j != idx && j != idx + STATE_NUM ==>
                animations[j] == old(animations[j])
    {
      animations[idx] := Animation(textureHeight, stagesNum, startOffsetPixel,
                                   offsetBetweenStages, figureWidth, playerPositionOffset);
      var width := (offsetBetweenStages + figureWidth) % SIZE_T_MODULUS;
      animations[idx + STATE_NUM] := Animation(textureHeight, stagesNum, startOffsetPixel,
                                               offsetBetweenStages, figureWidth,
                                               (width - playerPositionOffset) % SIZE_T_MODULUS);
    }

    /** `set_state`: the actor in slot `idx` enters `s` with a zero counter. */
    method SetState(idx: nat, s: State)
      requires Valid() && idx < MAX_THINGS
      modifies things
      ensures things[idx] == SetStateFields(old(things[idx]), s)
      ensures forall j :: 0 <= j < MAX_THINGS && j != idx ==> things[j] == old(things[j])
    {
      things[idx] := things[idx].(state := s);
      things[idx] := things[idx].(stateCnt := 0);
    }

    /** `process_input`, with the held state of the L and H keys given. */
    method ProcessInput(lDown: bool, hDown: bool)
      requires Ready()
      modifies things
      ensures Ready()
      ensures things[playerIdx] == InputTransition(old(things[playerIdx]), keyPressed, lDown, hDown)
      ensures forall j :: 0 <= j < MAX_THINGS && j != playerIdx ==> things[j] == old(things[j])
    {
      var i := playerIdx;
      ghost var t, anims := things[i], animations[..];
      if things[i].state != InputMode {
        if keyPressed == KEY_INPUT_MODE {
          things[i] := things[i].(state := InputMode, stateCnt := 0);
        }
        if things[i].state != Walk {
          if lDown {
            things[i] := things[i].(facingRight := true, state := Walk, stateCnt := 0);
          }
          if hDown {
            things[i] := things[i].(facingRight := false, state := Walk, stateCnt := 0);
          }
        } else {
          if !lDown && !hDown {
            SetState(i, Idle);
          }
        }
      }
      assert things[i] == InputTransition(t, keyPressed, lDown, hDown);
      assert animations[..] == anims;
      PlayerReadyKept(t, things[i], anims);
    }

    /** `process_game_state`. */
    method ProcessGameState()
      requires Ready()
      modifies things
      ensures Ready()
      ensures things[playerIdx] == StateTransition(old(things[playerIdx]), keyPressed, hitText[..])
      ensures forall j :: 0 <= j < MAX_THINGS && j != playerIdx ==> things[j] == old(things[j])
    {
      var i := playerIdx;
      var p := things[i];
      ghost var anims := animations[..];
      var currentStateDur := p.stateDur[p.state.Ordinal()];
      match p.state {
        case InputMode =>
          if currentStateDur == p.stateCnt && p.damage != 0 {
            things[i] := p.(state := Hit, stateCnt := 0);
          } else if keyPressed == hitText[p.hitTextIdx] {
            things[i] := p.(damage := p.damage + 1, hitTextIdx := (p.hitTextIdx + 1) % HIT_TEXT_CAPACITY);
          }
        case Hit =>
          if currentStateDur == p.stateCnt {
            things[i] := p.(damage := 0);
          }
        case Walk =>
          if p.facingRight {
            things[i] := p.(x := p.x + WALK_INCREMENT_PIXEL_PER_FRAME);
          } else {
            things[i] := p.(x := p.x - WALK_INCREMENT_PIXEL_PER_FRAME);
          }
        case _ =>
      }
      assert things[i] == StateTransition(p, keyPressed, hitText[..]);
      assert animations[..] == anims;
      PlayerReadyKept(p, things[i], anims);
    }

    /** `increment_game`. */
    method IncrementGame()
      requires Ready()
      modifies things
      ensures Ready()
      ensures things[playerIdx] == IncrementTransition(old(things[playerIdx]))
      ensures forall j :: 0 <= j < MAX_THINGS && j != playerIdx ==> things[j] == old(things[j])
    {
      var i := playerIdx;
      var currentStateDur := things[i].stateDur[things[i].state.Ordinal()];
      if currentStateDur == things[i].stateCnt {
        things[i] := things[i].(stateCnt := 0, state := Idle);
      }
      things[i] := things[i].(stateCnt := things[i].stateCnt + 1);
    }

    /** The five characters `draw_hit_text` shows, from the player's cursor
        on, around the end of the buffer, followed by a terminating NUL. */
    method HitTextWindow() returns (renderText: seq<char>)
      requires Valid()
      ensures |renderText| == RENDER_TEXT_SIZE + 1 && renderText[RENDER_TEXT_SIZE] == '\0'
      ensures forall i :: 0 <= i < RENDER_TEXT_SIZE ==>
                renderText[i] == hitText[(things[playerIdx].hitTextIdx + i) % HIT_TEXT_CAPACITY]
      ensures renderText == Window(hitText[..], things[playerIdx].hitTextIdx) + ['\0']
    {
      var buffer := new char[RENDER_TEXT_SIZE + 1](_ => '\0');
      var start := things[playerIdx].hitTextIdx;
      for i := 0 to RENDER_TEXT_SIZE
        invariant forall k :: 0 <= k < i ==> buffer[k] == hitText[(start + k) % HIT_TEXT_CAPACITY]
      {
        buffer[i] := hitText[(start + i) % HIT_TEXT_CAPACITY];
      }
      buffer[RENDER_TEXT_SIZE] := '\0';
      renderText := buffer[..];
      assert renderText == Window(hitText[..], start) + ['\0'];
    }

    /** The frame and source rectangle `draw_player` computes for the
        player: the strip of the player's state and facing, the frame for the
        counter, and its rectangle. The duration is never zero, a counter
        below the duration shows a frame of the strip, the last tick before
        expiry shows the last frame, and a counter at the duration shows the
        frame one past the end. */
    method DrawPlayer() returns (frame: nat, rect: Rect)
      requires Ready()
      ensures var p := things[playerIdx];
              var a := animations[GetAnimation(p.state, p.kind, p.facingRight)];
              && GetAnimation(p.state, p.kind, p.facingRight) == AnimationSlot(p.state, p.kind, p.facingRight)
              && p.Dur() > 0
              && frame == FrameIndex(p.stateCnt, p.Dur(), a.stagesNum)
              && rect == FrameRect(a, frame)
              && frame <= a.stagesNum
              && (p.stateCnt < p.Dur() ==> frame < a.stagesNum)
              && (p.stateCnt + 1 == p.Dur() ==> frame + 1 == a.stagesNum)
              && (p.stateCnt == p.Dur() ==> frame == a.stagesNum)
    {
      var p := things[playerIdx];
      var animationIdx := GetAnimation(p.state, p.kind, p.facingRight);
      AnimationSlotAgreesForKnight(p.state, p.facingRight);
      var animation := animations[animationIdx];
      var stateDuration := p.stateDur[p.state.Ordinal()];
      assert stateDuration != 0;
      frame := FrameIndex(p.stateCnt, stateDuration, animation.stagesNum);
      rect := FrameRect(animation, frame);
      FrameIndexRange(p.stateCnt, stateDuration, animation.stagesNum);
      if p.stateCnt + 1 == stateDuration {
        LastTickShowsLastFrame(stateDuration, animation.stagesNum);
      }
    }

    /** One iteration of the main loop: store the typed key, handle input,
        run the state logic, compute what is drawn, advance the timer. */
    method Tick(key: char, lDown: bool, hDown: bool) returns (renderText: seq<char>, frame: nat, rect: Rect)
      requires Ready()
      modifies this`keyPressed, things
      ensures Ready() && keyPressed == key
      ensures things[playerIdx] == TickTransition(old(things[playerIdx]), key, lDown, hDown, hitText[..])
      ensures forall j :: 0 <= j < MAX_THINGS && j != playerIdx ==> things[j] == old(things[j])
      ensures var shown := StateTransition(InputTransition(old(things[playerIdx]), key, lDown, hDown), key, hitText[..]);
              renderText == Window(hitText[..], shown.hitTextIdx) + ['\0']
    ensures var shown := StateTransition(InputTransition(old(things[playerIdx]), key, lDown, hDown), key, hitText[..]);
            var a := animations[GetAnimation(shown.state, shown.kind, shown.facingRight)];
            && frame == FrameIndex(shown.stateCnt, shown.Dur(), a.stagesNum)
            && rect == FrameRect(a, frame)
            && frame <= a.stagesNum
            && (shown.stateCnt < shown.Dur() ==> frame < a.stagesNum)
    {
      keyPressed := key;
      ProcessInput(lDown, hDown);
      ProcessGameState();
      renderText := HitTextWindow();
      frame, rect := DrawPlayer();
      IncrementGame();
    }
  }
}
