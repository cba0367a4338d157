# Chuckie Egg clone: input, simulation step and frame limiter

This project models the control layer of the game's main file, `src/main.cpp`,
in Dafny, and proves properties of it.

- **Input intent state machine** (`handleInput`). Three global flags, `done`,
  `movingLeft` and `movingRight`, are updated by each polled event: a quit
  request, a key-down carrying a repeat flag, or a key-up, for the keys D, A,
  Escape or any other key. The event source is a finite sequence of abstract
  events. Draining it is a left fold (`Input.Fold`) of the per-event transition
  `Input.Apply`.
- **Escape fall-through.** The `SDLK_ESCAPE` case of the key-down switch has
  no `break`, so a fresh Escape press sets `done` and also `movingRight`. The
  model keeps this behaviour exactly as written (`Input.EscapeFallsThrough`).
  One consequence is proved as `GameLoop.EscapeQuitsAfterStepRight`. Suppose
  the left flag is clear, no event in the frame touches the left direction,
  and no event after the press touches the right one. Then the pass that reads the Escape press still completes its
  simulation step, so the player takes one step to the right before the loop
  ends. The missing `break` looks unintended; the model follows the code.
- **Simulation step** (`updateSimulation`). Every tick requests gravity and
  the walk animation. Then exactly one of three guarded branches runs: move
  by `-playerSpeed`, move by `+playerSpeed`, or set the sprite idle. The
  sprite handler's code is not part of this model. Its calls are recorded in
  order as opaque `SpriteCall`s, and the only effect a move has here is on the
  player's integer x position. The speed is the integer 10.
- **Frame limiter** (`fpsLimiter`). The delay is `16 - dt`, clamped at 0. The
  source stores the difference in a 32-bit `int`, and that narrowing is
  modelled. Whenever the difference fits in 32 bits, the delay is
  `max(16 - dt, 0)`. A tick longer than 2^31 + 16 ms wraps, and
  `FrameLimiter.OverlongTickWraps` gives the delay for every tick up to
  2^32 + 16 ms. The elapsed time `dt` is an input, so no clock is read.
- **Main loop.** The loop runs `while (!done)`: handle input, update the
  simulation, render, limit the frame rate. The state lives in a `Game`
  object whose fields are the three flags, the x position and the call
  trace. `Game.Run` drives the loop over a finite sequence of frames. Each
  frame holds the events polled on that pass and the pass's measured length.

Each method of `Game` is proved against a pure function of the old state:
`Fold`, `Simulate` or `Loop`. The lemmas then state what those functions
promise.

## Model

| member | source | states |
|---|---|---|
| `Input.Apply` | src/main.cpp:46-87 | After one event, `done` holds iff it held before, or the event is a quit or a fresh Escape press. Each movement flag is raised by a fresh press of its key (Escape also raises the right flag), lowered by a release of its key whatever the repeat flag, and otherwise unchanged. |
| `Input.Fold` | src/main.cpp:44-88 | Draining the polled events applies the per-event transition to each, in order. Once `done` is set, draining more events never clears it. |
| `Input.FoldAppend` | src/main.cpp:44-88 | Draining two batches of events one after the other equals draining their concatenation. |
| `Input.FoldSnoc` | src/main.cpp:44-88 | Draining one more event applies the per-event transition once more to the state reached. |
| `Input.QuitOnlySetsDone` | src/main.cpp:48-51 | A quit event sets `done` and leaves `movingLeft` and `movingRight` unchanged. |
| `Input.RepeatedKeyDownIgnored` | src/main.cpp:59 | A key-down whose repeat flag is set changes none of the three flags, for any key. |
| `Input.KeyDownRules` | src/main.cpp:60-72 | A fresh D press sets only `movingRight`. A fresh A press sets only `movingLeft`. A fresh press of any other key changes nothing. |
| `Input.EscapeFallsThrough` | src/main.cpp:62-67 | A fresh Escape press sets `done` and also `movingRight`, and leaves `movingLeft` unchanged. |
| `Input.KeyUpRules` | src/main.cpp:75-86 | A D release clears only `movingRight`, and an A release clears only `movingLeft`, whatever the repeat flag. Releasing Escape or any other key changes nothing. |
| `Input.DoneAfterFold` | src/main.cpp:44-88 | After a batch, `done` holds iff it held before or some event in the batch is a quit or a fresh Escape press. No event ever clears it. |
| `Input.DoneMonotone` | src/main.cpp:44-88 | Once a prefix of the event sequence has set `done`, every longer prefix leaves it set. |
| `Input.UntouchedKeepsIntent` | src/main.cpp:44-88 | Events that neither press nor release a direction's key leave that direction's flag unchanged. |
| `Input.LastTouchDecides` | src/main.cpp:35-88 | Event order within a frame matters. A direction's flag after the batch is true iff the last event touching it is a press, not a release. |
| `Simulation.Simulate` | src/main.cpp:93-122 | A tick appends gravity, the walk animation and one more call. Under the source's three guards that call is a move by `-speed` with x decreased by the speed, a move by `+speed` with x increased by the speed, or a set-idle with x unchanged. |
| `Simulation.ExactlyOneBranch` | src/main.cpp:103-121 | x changes by `-speed` iff only the left flag is held. It changes by `+speed` iff only the right flag is held. It is unchanged, and the sprite is set idle, iff both flags or neither are held. |
| `FrameLimiter.ToInt32` | src/main.cpp:167 | Storing into an `int` yields a 32-bit value congruent to the input modulo 2^32, equal to the input when the input fits. |
| `FrameLimiter.FrameWait` | src/main.cpp:163-172 | The delay is never negative. When `16 - dt` fits in 32 bits, the delay is `16 - dt` for `dt <= 16` and 0 for `dt >= 16`, so it is at most 16 for a non-negative `dt`. |
| `FrameLimiter.OverlongTickWraps` | src/main.cpp:166-169 | For a tick longer than 2^31 + 16 ms and at most 2^32 + 16 ms, `16 - dt` wraps, and the limiter waits `2^32 + 16 - dt` ms instead of 0. |
| `GameLoop.Tick` | src/main.cpp:310-318 | One pass sets `done` iff it was set or a polled event is a quit or a fresh Escape press. It moves the player by `-speed`, 0 or `+speed`. It moves the player iff exactly one intent flag is held after the events are drained. It appends three sprite calls to the trace. |
| `GameLoop.Loop` | src/main.cpp:308-319 | The loop makes at most one pass per frame and requests one delay per pass. If it stops before the frames run out, `done` is set. If `done` is already set, no pass is made and the state is unchanged. |
| `GameLoop.Game.constructor` | src/main.cpp:11-23 | All three flags start false. The player starts at the given x position with no sprite calls made. |
| `GameLoop.Game.HandleInput` | src/main.cpp:29-89 | The flag fields end as the fold of the per-event transition over the events, in order. Position and call trace are unchanged. |
| `GameLoop.Game.UpdateSimulation` | src/main.cpp:93-122 | The three independent `if`s leave position and call trace equal to `Simulate` of the old ones. So exactly one branch runs, and the flags are unchanged. |
| `GameLoop.Game.Run` | src/main.cpp:308-319 | Running the loop leaves the object in the final state of `Loop`. It returns `Loop`'s count of passes and the delay requested after each pass. |
| `GameLoop.LoopWaits` | src/main.cpp:308-319 | The delay requested after each pass is the one computed from that pass's measured length. |
| `GameLoop.LoopStopsAtFirstDone` | src/main.cpp:308-319 | The loop's final state is that of the passes it made, each completed in full. `done` was false before every one of them, so the loop ends right after the first pass that sets `done`. |
| `GameLoop.HeldIntentKeepsMoving` | src/main.cpp:103-115 | While no events arrive and only one direction's flag is held, every pass runs and moves the player by the speed in that direction. Over `n` frames x changes by `-n * speed` for left and `+n * speed` for right. |
| `GameLoop.EscapeQuitsAfterStepRight` | src/main.cpp:62-67 | Take a frame with a fresh Escape press, the left flag clear, no event in the frame touching the left direction, and no later event touching the right direction. The loop ends after exactly that pass, and in it the player still moves right by the speed. |

## Left out

- Sprite handler internals (gravity, animation frame stepping, spritesheet loading, idle-sprite creation): their source is not part of this model, so their calls are recorded only as opaque `SpriteCall`s, and a move is reduced to an x-delta.
- Other sprites: gravity is applied to every sprite in the source's list, but the list only ever holds the player, so one sprite is modelled.
- Vertical position: gravity's effect is unknown without the sprite handler, so y is not modelled.
- Audio (`Mix_Playing`, `Mix_PlayChannel`, `Mix_HaltChannel`) in the simulation step: foreign calls on device state.
- `render()` and `src/TextBox.cpp`: they only issue draw and texture calls to the rendering library.
- SDL, SDL_mixer and SDL_ttf initialisation, window, renderer and asset loading, and `cleanExit`: I/O and resource plumbing.
- `SDL_PollEvent`, the clocks and `SDL_Delay`: replaced by a given event sequence per frame and a given elapsed time in milliseconds. `Game.Run` returns the delays instead of sleeping.
- Frame supply: the real loop runs until `done` is set. `Game.Run` also stops when its finite sequence of frames runs out.
- Floating-point `playerSpeed`: modelled as the integer 10.
- Key codes: only D, A and Escape are distinguished. Every other key is one `OtherKey`, and every other event type is one `OtherEvent`.
