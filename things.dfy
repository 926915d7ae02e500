/** The per-frame state machine of one actor (a "thing"): the record the
    game keeps per actor, the three handlers the main loop calls every frame
    (input, state logic, timer) as functions on that record, their
    composition into one tick, and the invariant every tick keeps. */
module Things {
  import opened Config

  /** Number of states of the state enumeration, and of actor kinds. */
  const STATE_NUM: nat := 9
  const THING_KIND_NUM: nat := 2

  /** The key that switches the player into input mode. */
  const KEY_INPUT_MODE: char := 'i'

  datatype State = Idle | InputMode | Hit | Recovery | Walk | Defend | Run | TakingDamage | Dying
  {
    /** Position of the state in the enumeration. */
    function Ordinal(): (n: nat)
      ensures n < STATE_NUM
    {
      match this
      case Idle => 0
      case InputMode => 1
      case Hit => 2
      case Recovery => 3
      case Walk => 4
      case Defend => 5
      case Run => 6
      case TakingDamage => 7
      case Dying => 8
    }

    /** The four states the main loop ever enters. */
    predicate Reachable()
    {
      this == Idle || this == InputMode || this == Hit || this == Walk
    }
  }

  datatype ThingKind = Knight | Demon
  {
    function Ordinal(): (n: nat)
      ensures n < THING_KIND_NUM
    {
      match this
      case Knight => 0
      case Demon => 1
    }
  }

  /** Duration in frames of every state, indexed by the state's ordinal. */
  type Durations = s: seq<nat> | |s| == STATE_NUM witness [0, 0, 0, 0, 0, 0, 0, 0, 0]

  /** The fields of an actor that the state machine reads or writes.
      `facingRight` stands for an orientation vector equal to (1, 0);
      `x` is the horizontal position. */
  datatype Thing = Thing(
    kind: ThingKind,
    state: State,
    stateCnt: nat,
    damage: int,
    x: real,
    facingRight: bool,
    stateDur: Durations,
    hitTextIdx: nat)
  {
    /** Duration of the given state. */
    function DurOf(s: State): (d: nat)
    {
      stateDur[s.Ordinal()]
    }

    /** Duration of the current state. */
    function Dur(): (d: nat)
    {
      DurOf(state)
    }

    /** What holds of the player between any two steps of the main loop:
        the state is one of the four reachable ones, each of them lasts at
        least one frame, the counter has not passed the duration, the
        charge is not negative and the typing cursor is inside the buffer. */
    predicate TickInvariant()
    {
      && state.Reachable()
      && DurOf(Idle) > 0 && DurOf(InputMode) > 0 && DurOf(Hit) > 0 && DurOf(Walk) > 0
      && stateCnt <= Dur()
      && damage >= 0
      && hitTextIdx < HIT_TEXT_CAPACITY
    }
  }

  /** An actor slot of the zero-initialised game: every field zero, so the
      orientation is (0, 0), which is not the default (1, 0). */
  const ZERO_THING: Thing := Thing(Knight, Idle, 0, 0, 0.0, false, [0, 0, 0, 0, 0, 0, 0, 0, 0], 0)

  /** The fields `init_player` sets: the position, the idle state, the
      orientation (1, 0) and the durations of the four reachable states;
      the counter, charge, cursor and the other durations are kept. */
  function InitPlayerFields(t: Thing): (r: Thing)
    ensures r.state == Idle && r.facingRight && r.x == (SCREEN_WIDTH / 2) as real
    ensures r.DurOf(Idle) == DurationFrames(IDLE_DURATION_MS)
    ensures r.DurOf(InputMode) == DurationFrames(INPUT_MODE_DURATION_MS)
    ensures r.DurOf(Hit) == DurationFrames(HIT_DURATION_MS)
    ensures r.DurOf(Walk) == DurationFrames(WALK_ANIMATION_DURATION_MS)
    ensures forall s: State :: !s.Reachable() ==> r.DurOf(s) == t.DurOf(s)
    ensures r == t.(state := Idle, facingRight := true, x := r.x, stateDur := r.stateDur)
    ensures t.stateCnt == 0 && t.damage >= 0 && t.hitTextIdx < HIT_TEXT_CAPACITY ==> r.TickInvariant()
  {
    var durations := t.stateDur[Idle.Ordinal() := DurationFrames(IDLE_DURATION_MS)]
                               [InputMode.Ordinal() := DurationFrames(INPUT_MODE_DURATION_MS)]
                               [Hit.Ordinal() := DurationFrames(HIT_DURATION_MS)]
                               [Walk.Ordinal() := DurationFrames(WALK_ANIMATION_DURATION_MS)];
    t.(x := (SCREEN_WIDTH / 2) as real, state := Idle, facingRight := true, stateDur := durations)
  }

  /** `set_state`: the actor enters `s` with its counter at zero and keeps
      everything else; entering a reachable state keeps the tick invariant. */
  function SetStateFields(t: Thing, s: State): (r: Thing)
    ensures r.state == s && r.stateCnt == 0
    ensures r.kind == t.kind && r.damage == t.damage && r.x == t.x && r.facingRight == t.facingRight
    ensures r.stateDur == t.stateDur && r.hitTextIdx == t.hitTextIdx
    ensures t.TickInvariant() && s.Reachable() ==> r.TickInvariant()
  {
    t.(state := s, stateCnt := 0)
  }

  /** Input handling of one frame, given the typed key and whether the L and
      H keys are held. Input mode ignores input. Otherwise 'i' enters input
      mode; then, unless the actor is now walking, a held L starts a walk to
      the right and a held H a walk to the left (H wins), and a walking actor
      with neither key held becomes idle. A walk already under way keeps its
      direction. */
  function InputTransition(t: Thing, key: char, lDown: bool, hDown: bool): (r: Thing)
    ensures r == t.(state := r.state, stateCnt := r.stateCnt, facingRight := r.facingRight)
    ensures t.state == InputMode ==> r == t
    ensures t.state != InputMode && (t.state != Walk || key == KEY_INPUT_MODE) && (lDown || hDown) ==>
              r.state == Walk && r.stateCnt == 0 && r.facingRight == !hDown
    ensures t.state != InputMode && (t.state != Walk || key == KEY_INPUT_MODE) && !lDown && !hDown ==>
              r == if key == KEY_INPUT_MODE then t.(state := InputMode, stateCnt := 0) else t
    ensures t.state == Walk && key != KEY_INPUT_MODE ==>
              r == if lDown || hDown then t else t.(state := Idle, stateCnt := 0)
    ensures t.TickInvariant() ==> r.TickInvariant()
  {
    if t.state == InputMode then t
    else
      var t1 := if key == KEY_INPUT_MODE then t.(state := InputMode, stateCnt := 0) else t;
      if t1.state != Walk then
        var t2 := if lDown then t1.(facingRight := true, state := Walk, stateCnt := 0) else t1;
        if hDown then t2.(facingRight := false, state := Walk, stateCnt := 0) else t2
      else if !lDown && !hDown then SetStateFields(t1, Idle)
      else t1
  }

  /** Per-state logic of one frame. In input mode an expired timer with a
      non-zero charge starts the hit; otherwise a key equal to the expected
      character raises the charge by one and advances the cursor around the
      buffer. A hit clears the charge on its last frame. A walk moves one
      step in the direction faced. Other states do nothing. */
  function StateTransition(t: Thing, key: char, text: seq<char>): (r: Thing)
    requires |text| == HIT_TEXT_CAPACITY && t.hitTextIdx < HIT_TEXT_CAPACITY
    ensures t.state == InputMode && t.stateCnt == t.Dur() && t.damage != 0 ==>
              r == t.(state := Hit, stateCnt := 0)
    ensures t.state == InputMode && !(t.stateCnt == t.Dur() && t.damage != 0) ==>
              r == if key == text[t.hitTextIdx]
                   then t.(damage := t.damage + 1, hitTextIdx := (t.hitTextIdx + 1) % HIT_TEXT_CAPACITY)
                   else t
    ensures t.state == Hit ==> r == t.(damage := if t.stateCnt == t.Dur() then 0 else t.damage)
    ensures t.state == Walk ==>
              r == t.(x := if t.facingRight then t.x + WALK_INCREMENT_PIXEL_PER_FRAME
                           else t.x - WALK_INCREMENT_PIXEL_PER_FRAME)
    ensures t.state !in {InputMode, Hit, Walk} ==> r == t
    ensures r.hitTextIdx < HIT_TEXT_CAPACITY
    ensures t.TickInvariant() ==> r.TickInvariant()
  {
    match t.state
    case InputMode =>
      if t.Dur() == t.stateCnt && t.damage != 0 then t.(state := Hit, stateCnt := 0)
      else if key == text[t.hitTextIdx] then
        t.(damage := t.damage + 1, hitTextIdx := (t.hitTextIdx + 1) % HIT_TEXT_CAPACITY)
      else t
    case Hit =>
      if t.Dur() == t.stateCnt then t.(damage := 0) else t
    case Walk =>
      if t.facingRight then t.(x := t.x + WALK_INCREMENT_PIXEL_PER_FRAME)
      else t.(x := t.x - WALK_INCREMENT_PIXEL_PER_FRAME)
    case _ => t
  }

  /** The timer of one frame: an expired state becomes idle, and the counter
      then goes up by one, so an expiry leaves the counter at 1. Nothing else
      changes; in particular the charge is not cleared. */
  function IncrementTransition(t: Thing): (r: Thing)
    ensures t.stateCnt == t.Dur() ==> r.state == Idle && r.stateCnt == 1
    ensures t.stateCnt != t.Dur() ==> r.state == t.state && r.stateCnt == t.stateCnt + 1
    ensures r == t.(state := r.state, stateCnt := r.stateCnt)
    ensures t.TickInvariant() ==> r.TickInvariant()
  {
    var t1 := if t.Dur() == t.stateCnt then t.(stateCnt := 0, state := Idle) else t;
    t1.(stateCnt := t1.stateCnt + 1)
  }

  /** One pass of the main loop over the player: input, state, timer. */
  function TickTransition(t: Thing, key: char, lDown: bool, hDown: bool, text: seq<char>): (r: Thing)
    requires |text| == HIT_TEXT_CAPACITY && t.hitTextIdx < HIT_TEXT_CAPACITY
    ensures r.hitTextIdx < HIT_TEXT_CAPACITY
    ensures r.stateCnt >= 1
    ensures r.kind == t.kind && r.stateDur == t.stateDur
    ensures t.TickInvariant() ==> r.TickInvariant()
  {
    IncrementTransition(StateTransition(InputTransition(t, key, lDown, hDown), key, text))
  }

  /** What the input sampler delivers for one frame. */
  datatype FrameInput = FrameInput(key: char, lDown: bool, hDown: bool)

  /** The player after the main loop has run once per element of `inputs`. */
  function RunTicks(t: Thing, inputs: seq<FrameInput>, text: seq<char>): (r: Thing)
    requires |text| == HIT_TEXT_CAPACITY && t.hitTextIdx < HIT_TEXT_CAPACITY
    ensures r.kind == t.kind && r.stateDur == t.stateDur
    ensures r.hitTextIdx < HIT_TEXT_CAPACITY
    ensures inputs != [] ==> r.stateCnt >= 1
    decreases |inputs|
  {
    if inputs == [] then t
    else
      var i := inputs[0];
      RunTicks(TickTransition(t, i.key, i.lDown, i.hDown, text), inputs[1..], text)
  }

  /** Any number of ticks keep the invariant. */
  lemma {:induction false} RunTicksKeepsInvariant(t: Thing, inputs: seq<FrameInput>, text: seq<char>)
    requires |text| == HIT_TEXT_CAPACITY && t.TickInvariant()
    ensures RunTicks(t, inputs, text).TickInvariant()
    decreases |inputs|
  {
    if inputs != [] {
      var i := inputs[0];
      RunTicksKeepsInvariant(TickTransition(t, i.key, i.lDown, i.hDown, text), inputs[1..], text);
    }
  }

  /** From the player `init_player` makes out of a zeroed slot, whatever the
      keys, the player is only ever idle, typing, hitting or walking, its
      counter never passes the duration of its state, that duration is
      positive (so the frame-index division is defined) and the cursor stays
      inside the buffer. */
  lemma ReachableStatesFromStart(inputs: seq<FrameInput>, text: seq<char>)
    requires |text| == HIT_TEXT_CAPACITY
    ensures var r := RunTicks(InitPlayerFields(ZERO_THING), inputs, text);
            && r.state in {Idle, InputMode, Hit, Walk}
            && 0 < r.Dur() && r.stateCnt <= r.Dur()
            && r.hitTextIdx < HIT_TEXT_CAPACITY
  {
    RunTicksKeepsInvariant(InitPlayerFields(ZERO_THING), inputs, text);
  }

  /** A correct keystroke in input mode before the timer expires charges the
      hit by one and moves the cursor by one, whatever keys are held. */
  lemma TypingChargesOnMatch(t: Thing, key: char, lDown: bool, hDown: bool, text: seq<char>)
    requires |text| == HIT_TEXT_CAPACITY && t.TickInvariant()
    requires t.state == InputMode && t.stateCnt < t.Dur() && key == text[t.hitTextIdx]
    ensures var r := TickTransition(t, key, lDown, hDown, text);
            && r.state == InputMode && r.stateCnt == t.stateCnt + 1
            && r.damage == t.damage + 1
            && r.hitTextIdx == (t.hitTextIdx + 1) % HIT_TEXT_CAPACITY
  {
  }

  /** A wrong keystroke in input mode changes neither the charge nor the
      cursor. */
  lemma TypingIgnoresMismatch(t: Thing, key: char, lDown: bool, hDown: bool, text: seq<char>)
    requires |text| == HIT_TEXT_CAPACITY && t.TickInvariant()
    requires t.state == InputMode && key != text[t.hitTextIdx]
    ensures var r := TickTransition(t, key, lDown, hDown, text);
            r.damage == t.damage && r.hitTextIdx == t.hitTextIdx
  {
  }

  /** When input mode expires with a charge, the hit starts; after the tick
      its counter is 1 and the charge and cursor are untouched. */
  lemma ChargedInputStartsHit(t: Thing, key: char, lDown: bool, hDown: bool, text: seq<char>)
    requires |text| == HIT_TEXT_CAPACITY && t.TickInvariant()
    requires t.state == InputMode && t.stateCnt == t.Dur() && t.damage != 0
    ensures var r := TickTransition(t, key, lDown, hDown, text);
            && r.state == Hit && r.stateCnt == 1
            && r.damage == t.damage && r.hitTextIdx == t.hitTextIdx
  {
  }

  /** When input mode expires without a charge, a correct keystroke on that
      last frame still charges, and the actor goes idle keeping the charge. */
  lemma UnchargedInputExpiresKeepingLastKey(t: Thing, key: char, lDown: bool, hDown: bool, text: seq<char>)
    requires |text| == HIT_TEXT_CAPACITY && t.TickInvariant()
    requires t.state == InputMode && t.stateCnt == t.Dur() && t.damage == 0
    requires key == text[t.hitTextIdx]
    ensures var r := TickTransition(t, key, lDown, hDown, text);
            r.state == Idle && r.stateCnt == 1 && r.damage == 1
  {
  }

  /** The last frame of a hit, with no key pressed or held, clears the
      charge and returns to idle. */
  lemma HitExpiryClearsCharge(t: Thing, key: char, text: seq<char>)
    requires |text| == HIT_TEXT_CAPACITY && t.TickInvariant()
    requires t.state == Hit && t.stateCnt == t.Dur() && key != KEY_INPUT_MODE
    ensures var r := TickTransition(t, key, false, false, text);
            r.state == Idle && r.stateCnt == 1 && r.damage == 0
  {
  }

  /** Input handling does not protect a hit: 'i' or a held direction key
      ends it on the spot, and the charge survives into the new state. */
  lemma HitIsInterruptible(t: Thing, key: char, lDown: bool, hDown: bool, text: seq<char>)
    requires |text| == HIT_TEXT_CAPACITY && t.TickInvariant()
    requires t.state == Hit && (key == KEY_INPUT_MODE || lDown || hDown)
    ensures var r := TickTransition(t, key, lDown, hDown, text);
            && r.state == (if lDown || hDown then Walk else InputMode)
            && r.stateCnt == 1
            && r.damage >= t.damage
  {
  }

  /** The key 'i' that opens input mode is checked against the buffer in the
      same frame: when 'i' is the expected character it is counted. */
  lemma EnteringInputModeCountsTheKey(t: Thing, text: seq<char>)
    requires |text| == HIT_TEXT_CAPACITY && t.TickInvariant()
    requires t.state != InputMode && text[t.hitTextIdx] == KEY_INPUT_MODE
    ensures var r := TickTransition(t, KEY_INPUT_MODE, false, false, text);
            && r.state == InputMode && r.stateCnt == 1
            && r.damage == t.damage + 1
  {
  }

  /** A walk keeps the direction it started with while a direction key is
      held, even if that key is the opposite one, until the walk expires. */
  lemma WalkKeepsDirection(t: Thing, key: char, lDown: bool, hDown: bool, text: seq<char>)
    requires |text| == HIT_TEXT_CAPACITY && t.TickInvariant()
    requires t.state == Walk && key != KEY_INPUT_MODE && (lDown || hDown) && t.stateCnt < t.Dur()
    ensures var r := TickTransition(t, key, lDown, hDown, text);
            && r.state == Walk && r.facingRight == t.facingRight && r.stateCnt == t.stateCnt + 1
            && r.x == if t.facingRight then t.x + WALK_INCREMENT_PIXEL_PER_FRAME
                      else t.x - WALK_INCREMENT_PIXEL_PER_FRAME
  {
  }
}
