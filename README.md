# Town walk-cycle game: simulation core in Dafny

This project models the simulation layer of the flat-world version of a small
browser game (`game.js`, one `Game` class). A samurai walks or runs left and
right through a town of 2000 pixels. Three NPCs (a villager, a lord and a
ronin) stand in the town, and each has a greeting and three follow-up lines.
The model covers:

- **movement**: the `a`/`d` keys move the player by the walk speed (3) or by
  the run speed (7) while `shift` is held. The facing direction and the
  animation state (`idle`, `walk`, `run`) follow the keys. `x` is clamped to
  the map.
- **camera**: centred on the player and clamped to the map.
- **proximity**: a linear scan picks the nearest NPC whose centre is strictly
  within 50 pixels of the player's centre. On a tie, the first NPC listed wins.
- **dialogue**: the interact key `e` opens a dialogue on the greeting (line
  index -1). Each further `e` shows the next line, and the press after the
  last line closes the dialogue.
- **animation clock**: the player's frame and every NPC's frame move on only
  when strictly more than 100 ms have passed. Each frame wraps within its clip,
  and NPC clips have 4 frames. The frame drawn is clamped into the current clip.
- **key bookkeeping**: the `keydown`/`keyup` handler bodies, which maintain
  the key table, the moving flag and the running flag.
- **time of day**: the hour is split into dawn, day, dusk and night.

Module layout:

- `Content`: entities and fixed tables.
- `TimeOfDay`, `Motion`, `Proximity`, `Dialogue`, `Animation`, `Controls`:
  pure logic with its properties.
- `Engine`: the class `Game`. Its fields are the game's mutable state. Its
  methods are the per-tick steps and the two key handlers, each proved
  against the functions above while keeping the invariant `Valid()`.

Representation choices:

- The player, each NPC and the open dialogue are JavaScript objects updated in
  place. Here they are datatype values held in `Game` fields and reassigned.
- References to an NPC (the active NPC, the NPC of the open dialogue) are
  indices into `npcs`. The list never changes length.
- Distances use doubled centre coordinates and squared lengths, so every
  comparison is exact on integers. For non-negative `d` and `r`, `d < r`
  exactly when `(2d)² < (2r)²`, so the scan makes the same choices as the
  square-root comparisons.
- Timestamps and the camera position are `real`, because half the canvas
  width need not be an integer.
- The time-of-day split is a total classification of every integer hour, not
  only of 0..23.

Two behaviours of the code that a reader may not expect, and that the model keeps:

- Leaving the NPC's reach does not close an open dialogue
  (`checkNPCInteraction` only updates the active NPC and the prompt).
  `Engine.Game.Update` states that a tick leaves the dialogue unchanged.
- Holding `shift` alone sets the moving flag, so the player plays the run
  clip without moving.

## Model

| member | source | states |
|---|---|---|
| `Content.ClipOf` | game.js:22-26 | every animation state has a clip of 1 to 8 frames, so the state always selects an entry of the animation table |
| `Content.ScriptOf` | game.js:65-90 | every NPC type has a non-empty greeting and exactly three follow-up lines |
| `Content.InitNpcs` | game.js:167-183 | the town has three NPCs (villager, lord, ronin, in that order), all 58 by 56, standing on the ground, at frame 0 |
| `Content.InitPlayer` | game.js:140-151 | the player starts idle, not moving or running, facing right, inside the map, with its feet on the ground |
| `TimeOfDay.PeriodOf` | game.js:286-289 | each of the dawn, day, dusk and night flags holds exactly when the hour is classified as that period, so exactly one of the four holds for any hour |
| `Motion.ClampX` | game.js:263 | the clamped x lies in `[0, max(0, mapWidth - width)]`, equals x when x is already in range, and is the nearer bound otherwise |
| `Motion.StateFor` | game.js:256-260 | the state is idle exactly when not moving, run exactly when moving and running, walk exactly when moving and not running |
| `Motion.CameraX` | game.js:235-241 | the camera is centred on the player (player x minus half the view) whenever that is between 0 and the last full view; a centre left of the map gives 0, a centre past the last full view gives that view when the map is wider than the view, and a view wider than the map gives 0; so the camera is never left of the map and, on a map wider than the view, never past its last full view |
| `Proximity.FindNearest` | game.js:459-472 | the scan returns nothing exactly when no NPC centre is strictly within the radius; otherwise an NPC in reach with minimal distance, the first such in the list |
| `Proximity.NearestUnique` | game.js:459-472 | at most one answer meets that description, so the choice of the active NPC is determined |
| `Dialogue.Open` | game.js:478-485 | opening shows the NPC's greeting at the sentinel index -1 |
| `Dialogue.Next` | game.js:487-499 | an advance raises the index by exactly one; the session stays open, showing the line at the new index, exactly when that index is a line of the script, and closes otherwise |
| `Dialogue.AdvanceTimes` | game.js:487-499 | repeated advances keep any open session at a valid position showing that position's text |
| `Dialogue.ClosedStaysClosed` | game.js:488 | advancing when no dialogue is open is a no-op, however many times it is repeated |
| `Dialogue.AdvanceWalk` | game.js:487-499 | from any position, m advances reach the line m further on while one exists and close the dialogue otherwise |
| `Dialogue.ConversationRuns` | game.js:478-499 | after opening, the k-th advance shows follow-up line k-1, and the advance after the last line closes the dialogue |
| `Animation.NextFrame` | game.js:577 | the next frame is a frame of the clip: one further on inside the clip, the first frame after the last one, and, for a frame left over from a clip up to twice as long, one further on less the clip length, or the first frame after that clip's last one (once the player walks or stops, the run clip's frames 4-6 go to 1-3 and frame 7 wraps to 0) |
| `Animation.FrameAfterLoops` | game.js:574-585 | from a frame of the clip, n ticks land on the frame n further on counted round the clip (start plus n, modulo the clip length), for every n |
| `Animation.FrameAfterFullLoop` | game.js:574-585 | after as many ticks as the clip has frames, the clock is back at the frame it started from |
| `Animation.RenderFrame` | game.js:671-673 | the frame drawn is always a frame of the current clip and never later than the current frame: the current frame when the clip has it, else the clip's last frame |
| `Controls.TrackedKey` | game.js:188 | a key name is recognised exactly when it is the name of one of the four tracked keys, and then as that key |
| `Controls.TrackedKeyName` | game.js:35-40 | each tracked key is recognised by its own name |
| `Controls.NoKeys` | game.js:35-40 | a fresh key table holds all four tracked keys, none pressed |
| `Controls.InteractAction` | game.js:199-203 | `e` starts a dialogue exactly when an NPC is in reach and none is open, and advances exactly when one is open; every other case leaves the dialogue alone |
| `Engine.ReleasedKeyLeavesOthers` | game.js:210-214 | after a movement key is released, some movement key is held exactly when one of the other movement keys was held |
| `Engine.Game.constructor` | game.js:138-157 | a started game: initial player and NPCs, no key pressed, camera at 0, no active NPC, no dialogue, frame 0 at time 0, and the invariant holds |
| `Engine.Game.UpdatePlayerPosition` | game.js:243-264 | x becomes the clamp of x minus the speed if `a` is held, plus the speed if `d` is held; both held cancel and leave the player facing right; the state follows the moving/running flags; nothing else changes |
| `Engine.Game.UpdateCamera` | game.js:235-241 | the camera is set to `CameraX` of the player and nothing else changes |
| `Engine.Game.CheckNpcInteraction` | game.js:459-476 | the active NPC becomes the nearest NPC in reach (or none), the prompt is shown exactly when there is one, and the dialogue is left as it was |
| `Engine.Game.StartDialogue` | game.js:478-485 | the dialogue flag is set and the current dialogue is the NPC's greeting at index -1 |
| `Engine.Game.AdvanceDialogue` | game.js:487-499 | the current dialogue becomes its advance (the next line, or closed with the flag cleared); with no dialogue open, nothing changes |
| `Engine.Game.KeyDown` | game.js:186-204 | a tracked key is marked pressed, any tracked key but `e` sets the moving flag, `shift` sets the running flag; then the dialogue is started, advanced or left as `InteractAction` decides |
| `Engine.Game.KeyUp` | game.js:206-219 | a tracked key is marked released; releasing a movement key leaves the moving flag set exactly when another movement key is still pressed; releasing `shift` clears the running flag; nothing else changes |
| `Engine.Game.AdvanceAnimation` | game.js:573-585 | when strictly more than 100 ms have passed, the player's frame and every NPC's frame move one on within their clips and the time is recorded; otherwise nothing changes |
| `Engine.Game.Update` | game.js:566-586 | after a tick the invariant holds; the player has moved by the key-driven step clamped to the map, faces right if `d` is held, else left if `a` is held, else as before, and has the state of its moving/running flags, which are unchanged, as is the rest of the player; the camera follows the player; the active NPC is the nearest in reach and the prompt shows exactly when there is one; when strictly more than 100 ms have passed since the last frame, the player's frame and each NPC's frame move one on and the time is recorded, otherwise frames, NPCs and time are unchanged; NPC positions, the keys and the dialogue are never touched |

## Left out

- All drawing is left out: `render`, every `draw*` method, `drawSky`, `getSkyColor` (colour interpolation over a floating-point ratio), `drawGroundDecorations` and `wrapText` (which depends on the canvas's text measurement). This code only presents state.
- The floating-point `timeRatio` of `getTimeOfDay` is left out. The hour is a parameter, because the clock is the host's.
- Clouds and stars (`updateClouds` and their initialisation) are left out, because they use random numbers and fractional speeds.
- `resizeCanvas`, `initStartScreen`, `loadAssets` and `updateUI` are DOM, canvas and image I/O and are left out. The canvas width is fixed for the lifetime of a `Game` (`viewWidth`). Resizing the window is not modelled.
- Event-listener registration, `gameLoop`/`requestAnimationFrame` and `setInterval`/`updateSkyTime` are host scheduling. Each handler body is a method that receives the key or the timestamp.
- `Engine.Game.KeyDown`, `Engine.Game.KeyUp`: the key arrives already lower-cased. Case folding of the browser's key name is not modelled.
- `Proximity.FindNearest`: compares exact integer squared distances. The rounding of `Math.sqrt` on floating-point values is not modelled.
- `Engine.Game.AdvanceAnimation`: does not model JavaScript number precision. Timestamps and the camera are exact reals, positions are unbounded integers, and no positions or speeds in the game come near the range where this would differ.
- NPC objects and their aliasing are not modelled. References to an NPC are indices into the NPC list, and each frame update replaces the NPC's record.
- The town's buildings are only drawn, and are left out.
