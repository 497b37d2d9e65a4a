# LED weather station: a verified model of the input and screen logic

The LED weather station drives a 64×32 LED panel from a Raspberry Pi. A
rotary encoder with a push button is the only input. A decoder thread turns
the encoder's two lines and the button into `Left`, `Right`, `Click` and
`LongPress` events. The render loop consumes at most one event per frame.
In normal mode it hands Left, Right and Click to the active screen, and a
long press enters selection mode. In selection mode Left and Right step
through the screens, and Click or LongPress leave the mode. Then the active
screen draws itself.

This project models, in Dafny:

- the quadrature decoder and the button's click/long-press decision
  (`rotary.dfy`, module `Rotary`);
- the render loop's two-mode state machine (`dispatcher.dfy`, module
  `Dispatcher`);
- the single-slot mailbox that carries sensor readings to the screen
  (`mailbox.dfy`, module `Mailbox`);
- the background screen: its image ring, and the sensor line that scrolls
  across the top (`background.dfy`, module `Background`);
- the maze screen's depth-first exploration, one field per frame
  (`maze.dfy`, module `Maze`);
- the integer parts of the wave screen: grid indexing, neighbour coordinates,
  and the map swap and recompute of `draw` (`waves.dfy`, module `Waves`).

Shared pieces:

- `options.dfy` holds `Option`.
- `events.dfy` holds `InputEvent`.
- `index_math.dfy` models Rust's truncating `%` on signed integers, `abs`, and
  the expression of the ring-index `wrap` (src/screens/background.rs:214-218,
  which nothing calls). src/main.rs:73 repeats that expression inline for the
  screen index, so in the model only `Dispatcher` uses `IndexMath.Wrap`.

Each part keeps the form of the code it models:

- Code that updates state in place is a class, with methods whose loops mirror
  the source's loops. Examples: the decoder's poll loop and button hold loop,
  the render loop, the mailbox's shared slot, the screens.
- Each such method is proved equal to a pure function that states its effect. Examples:
  `Rotary.FeedAll`, `Dispatcher.Run`/`Tick`, `Maze.DrawState`, `Waves.Cell`.
- The properties are proved as lemmas about those functions.

Hardware access, clocks and randomness are parameters:

- a rotation interrupt carries the two line levels;
- the button's hold loop reads `read(k)` after `k` polls;
- a maze reset receives the freshly generated layout;
- `draw` on the maze receives the random direction order;
- `draw` on the waves receives the per-cell update rule.

Three behaviours of the code are worth knowing:

- **The direction hint is never reset.** Once the decoder has latched a
  direction, no interrupt sets the hint back to `Unknown`, not even the one
  that completes a detent (`Rotary.HintNeverReset`).
- **The long-press test is a strict comparison.** After each 100 ms sleep the
  hold loop tests whether strictly more than 1000 ms have elapsed since the
  button went down, without reading the button again first. With sleeps of
  exactly 100 ms, as modelled, a press is long iff it is held more than
  1000 ms (`Rotary.HoldThreshold`).
- **The new screen is drawn in the same frame.** The screen index chosen by an
  event takes effect in the same frame: the loop draws `screens[screen_idx]`
  after handling the event (`Dispatcher.Tick`).

## Model

| member | source | states |
|---|---|---|
| `Rotary.Transition` | src/rotary.rs:50-98 | Read against the Gray-code cycle 00→01→11→10→00: a forward step latches Right and a backward step latches Left. Every other observation leaves the hint unchanged, and a known hint never becomes Unknown. An event goes out exactly on a return to rest from outside rest with a known hint that agrees with the direction of the last step, and it is the hint's event |
| `Rotary.RotaryEncoder.constructor` | src/rotary.rs:35-42 | The encoder starts at rest (00) with nothing sent |
| `Rotary.RotaryEncoder.HandleRotation` | src/rotary.rs:44-101 | The nested branches of `handle_rotation` do what `Transition` says: the state becomes the observed pair, the hint is updated, and at most the one event is appended to the channel |
| `Rotary.PressEvent` | src/rotary.rs:127-141 | A press yields LongPress iff the first 11 reads (the one before the first sleep, and one after each of the next 10) all find the button down; otherwise Click. Exactly one of the two |
| `Rotary.RotaryEncoder.HandleButtonPress` | src/rotary.rs:127-141 | The hold loop, with its `sent` flag and `break`, appends exactly one event to the channel, the one `PressEvent` names |
| `Rotary.HoldThreshold` | src/rotary.rs:131-133 | With sleeps of exactly 100 ms, a button released `ms` milliseconds after going down gives LongPress iff `ms > 1000`, and Click otherwise |
| `Rotary.Feed` | src/rotary.rs:121-145 | One interrupt extends what was sent by at most one event and never changes what was already sent |
| `Rotary.FeedAll` | src/rotary.rs:121-146 | The loop body applied to each interrupt in turn sends at most one event per interrupt and never changes what was already sent. `Rotary.FeedAllConcat`, `Rotary.HintNeverReset`, `Rotary.OnePressPerButtonDown` and the detent lemmas state the rest |
| `Rotary.RotaryEncoder.PollLoop` | src/rotary.rs:116-146 | The poll loop, starting with hint Unknown, ends in the state and channel contents `FeedAll` gives for its interrupts |
| `Rotary.FeedAllConcat` | src/rotary.rs:121-146 | Handling `a + b` is handling `a`, then `b` |
| `Rotary.RightDetentSendsRight` | src/rotary.rs:50-100 | From rest, 00→01→11→10→00 sends exactly one Right and returns to rest, whatever hint was latched |
| `Rotary.LeftDetentSendsLeft` | src/rotary.rs:50-100 | From rest, 00→10→11→01→00 sends exactly one Left and returns to rest |
| `Rotary.MissedEdgeRecovers` | src/rotary.rs:88-95 | A right detent whose 11→10 edge was lost (00→01→11→00) still sends exactly one Right |
| `Rotary.RightDetentsSendRights` | src/rotary.rs:50-100 | `k` right detents from rest send exactly `k` Right events and nothing else |
| `Rotary.HintNeverReset` | src/rotary.rs:50-98 | Once a direction is latched, no sequence of interrupts sets the hint back to Unknown |
| `Rotary.OnePressPerButtonDown` | src/rotary.rs:122-145 | The number of Click/LongPress events sent equals the number of falling button edges handled; encoder edges never send a press |
| `Mailbox.Mailbox.constructor` | src/mailbox.rs:13-19 | A new mailbox has a fresh, empty slot |
| `Mailbox.Mailbox.Clone` | src/mailbox.rs:21-25 | A clone is a new handle on the same slot |
| `Mailbox.Mailbox.Put` | src/mailbox.rs:27-31 | The slot holds the new value, replacing any unread one |
| `Mailbox.Mailbox.IfNew` | src/mailbox.rs:33-39 | Returns what the slot held (the callback's argument exactly when there was one) and leaves the slot empty |
| `Mailbox.LatestValueWins` | src/mailbox.rs:27-39 | Two puts then two polls: the first poll delivers only the second value, and the second poll finds nothing |
| `Mailbox.ClonesShareTheSlot` | src/mailbox.rs:21-39 | A value put through the clone is taken through the original, and a later poll through the clone finds nothing |
| `Mailbox.NeverPutNeverDelivers` | src/mailbox.rs:13-39 | A mailbox nobody puts into never runs the callback, however often it is polled |
| `IndexMath.RemT` | src/waves.rs:104-105 | Rust's `%` for a positive divisor: strictly between `-m` and `m`, the Euclidean remainder for non-negative operands and its negation for negative ones |
| `IndexMath.Wrap` | src/screens/background.rs:214-218 | `((value + delta) % len + len) % len` is the Euclidean remainder of `value + delta`, inside the ring. The dispatcher's inline copy at src/main.rs:72-73 is the same expression |
| `Dispatcher.Handle` | src/main.rs:61-82 | With no event nothing changes. In normal mode Left/Right/Click are forwarded to the active screen unchanged and LongPress enters selection mode, forwarding nothing. In selection mode nothing is forwarded: Left gives `(idx - 1) mod N`, Right gives `(idx + 1) mod N`, and Click/LongPress leave the mode with the index unchanged. The index stays below N |
| `Dispatcher.Tick` | src/main.rs:61-90 | The state after the frame is `Handle`'s, and the call forwarded is `Handle`'s. Each frame draws exactly the screen at the index after this frame's event, with the border exactly when selection mode is on after it |
| `Dispatcher.Run` | src/main.rs:58-94 | For every event sequence the index stays in `[0, N)` |
| `Dispatcher.Dispatch` | src/main.rs:61-82 | The loop body's `ds` computation and wrap compute what `Handle` specifies |
| `Dispatcher.RenderLoop` | src/main.rs:50-94 | Starting at index 0 in normal mode, the loop consumes one `try_recv` result per frame, and frame `k` is `Tick` applied to the state after the first `k` results |
| `Dispatcher.SelectionSteps` | src/main.rs:62-73 | In selection mode Left from 0 goes to N-1 and otherwise to idx-1; Right from N-1 goes to 0 and otherwise to idx+1 |
| `Dispatcher.LeftRightCancel` | src/main.rs:73 | In selection mode, Left then Right, or Right then Left, returns to the same index |
| `Dispatcher.RunConcat` | src/main.rs:58-94 | Running `a + b` is running `a`, then `b` |
| `Dispatcher.IdleTicksChangeNothing` | src/main.rs:61 | Frames on which nothing was received leave the index and the mode unchanged |
| `Dispatcher.TwoScreenScenario` | src/main.rs:53-90 | With the two screens, LongPress, Right, Right, Click draws screens 0, 1, 0, 0. The border is on the first three frames, and the loop ends in normal mode on screen 0 |
| `Background.Rotated` | src/screens/background.rs:120-124 | Moving the front buffer to the back keeps the same images, with the same multiplicities |
| `Background.RotatedBack` | src/screens/background.rs:126-130 | Moving the back buffer to the front keeps the same images |
| `Background.RotationsCancel` | src/screens/background.rs:120-130 | `next` then `prev`, or `prev` then `next`, restores the ring |
| `Background.RotationsStartAt` | src/screens/background.rs:120-124 | After `k` forward rotations the ring starts at image `k mod n` |
| `Background.BackgroundScreen.constructor` | src/screens/background.rs:109-117 | The screen starts with the downloaded images, "Loading...", scroll state (0, 0) and an empty mailbox |
| `Background.BackgroundScreen.Next` | src/screens/background.rs:120-124 | The ring rotates forward, and nothing else changes |
| `Background.BackgroundScreen.Prev` | src/screens/background.rs:126-130 | The ring rotates backward, and nothing else changes |
| `Background.BackgroundScreen.Left` | src/screens/background.rs:197-199 | Left is `prev` |
| `Background.BackgroundScreen.Right` | src/screens/background.rs:201-203 | Right is `next` |
| `Background.BackgroundScreen.Click` | src/screens/background.rs:205-207 | A click changes nothing |
| `Background.Scroll` | src/screens/background.rs:167-177 | The frame counter cycles through 0..6, and every seventh frame moves the text one pixel. It returns to 0 when the position reaches a multiple of the text's pixel width, so a position inside the text stays inside it |
| `Background.BackgroundScreen.Draw` | src/screens/background.rs:132-193 | The backdrop is the front buffer, or the default image when there is none. The mailbox is emptied. A new reading replaces the sensor line only when its CO2 value is a number. The scroll state advances by `Scroll`, and the text starts at column `64 - x` |
| `Background.ScrollStaysWithinText` | src/screens/background.rs:167-177 | From the start, however many frames pass with a fixed text, the position stays in `[0, 8 * length)` |
| `Background.SevenFramesOnePixel` | src/screens/background.rs:169-176 | Seven frames move the text exactly one pixel, wrapping to 0 at the text's width |
| `Background.SensorReadingReachesScreen` | src/screens/background.rs:147-158 | A valid reading put by the sensor thread is shown on the next frame, and the mailbox is then empty |
| `Maze.NextOpposite` | src/screens/maze.rs:65-73 | With the step offsets the drawing code uses for each direction (north is `y - 1`), stepping in a direction and then in its opposite returns to the same coordinate |
| `Maze.InitialState` | src/screens/maze.rs:29-32 | The search starts with only the start in the frontier, nothing visited, not done; so it starts `Consistent`, the base case of `Maze.DrawKeepsConsistent` |
| `Maze.MazeScreen.constructor` | src/screens/maze.rs:23-33 | The screen starts in `InitialState` of the generated maze |
| `Maze.ResetState` | src/screens/maze.rs:35-54 | A reset clears `visited`, clears `done`, and keeps the maze size. It appends the new start behind the old frontier without clearing it |
| `Maze.MazeScreen.Reset` | src/screens/maze.rs:35-54 | The fields change as `ResetState` says |
| `Maze.Pushed` | src/screens/maze.rs:134-142 | Exploring a field pushes at most one entry per direction tried, each for a coordinate not yet visited and each with an entrance direction that leads back to the explored field |
| `Maze.PushedEntries` | src/screens/maze.rs:134-142 | An entry is pushed iff it is the neighbour behind a passage of the explored field in one of the tried directions, is not yet visited, and carries the opposite direction as its entrance |
| `Maze.PopsAtMostOne` | src/screens/maze.rs:129-142 | A draw removes at most the front entry. The rest of the old frontier stays at the back, and everything in front of it is newly pushed and not visited |
| `Maze.VisitsPopped` | src/screens/maze.rs:129-132 | A popped coordinate that is a field is entered in `visited` with its entrance direction; otherwise `visited` is unchanged |
| `Maze.VisitedOnlyGrows` | src/screens/maze.rs:120-132 | Between resets a draw only adds to `visited` and keeps the maze |
| `Maze.DoneThenReset` | src/screens/maze.rs:120-125 | The first draw that finds the goal visited sets `done`, and no other draw before a reset does. The draw after that resets to a new layout of the same size, with at most one field visited |
| `Maze.StaleEntryExploredFirst` | src/screens/maze.rs:51-53 | Because a reset keeps the frontier, the first draw after one explores the oldest stale entry in the new maze, while the new start waits at the back |
| `Maze.DrawKeepsConsistent` | src/screens/maze.rs:117-146 | Only fields of the current maze are ever visited, and `done` is only set with the goal visited; draws and resets keep both |
| `Maze.MazeScreen.Left` | src/screens/maze.rs:106-107 | Left changes nothing |
| `Maze.MazeScreen.Right` | src/screens/maze.rs:109-110 | Right changes nothing |
| `Maze.MazeScreen.Click` | src/screens/maze.rs:112-115 | A click is a reset |
| `Maze.MazeScreen.PushOpenNeighbours` | src/screens/maze.rs:134-142 | The direction loop pushes exactly `Pushed` onto the front of the frontier, and leaves the maze, `visited` and `done` alone |
| `Maze.DrawState` | src/screens/maze.rs:117-146 | One call of `draw` keeps the maze size, changes the layout only when it resets a finished search, and grows the frontier by at most the number of directions tried. `Maze.PopsAtMostOne`, `Maze.VisitsPopped`, `Maze.VisitedOnlyGrows`, `Maze.DoneThenReset` and `Maze.DrawKeepsConsistent` state the rest |
| `Maze.MazeScreen.Draw` | src/screens/maze.rs:117-146 | The check at the top, the pop, the visit and the direction loop change the fields as `DrawState` says |
| `Waves.XyToIndex` | src/waves.rs:4-9 | For `0 <= x < width`, row `y` occupies the `width` indices from `y * width` on. `Waves.IndexRoundTrip`, `Waves.IndexInBounds` and `Waves.IndexInjective` state the rest |
| `Waves.IndexRoundTrip` | src/waves.rs:4-9 | For `0 <= x < width`, the index's remainder by `width` is `x` and its quotient is `y` |
| `Waves.IndexInBounds` | src/waves.rs:88-90 | Every cell of a `width`×`height` grid has an index below `width * height` |
| `Waves.IndexInjective` | src/waves.rs:4-9 | Distinct cells have distinct indices |
| `Waves.NeighbourCoord` | src/waves.rs:104-105 | `((c) % size).abs()` always lands in `[0, size)` |
| `Waves.NeighbourEdges` | src/waves.rs:104-105 | Inside the grid the neighbour is `c + u`. Past the right or bottom edge it wraps to 0. Past the left or top edge it reflects to 1, or to 0 on a one-wide grid |
| `Waves.NeighbourIndex` | src/waves.rs:104-108 | The neighbour's index is inside the map |
| `Waves.AsWrittenSkipsColumn` | src/waves.rs:98-102 | With the test as written the loops examine six offsets: all of the `u = ±1` columns, and neither `(0, -1)` nor `(0, 1)` |
| `Waves.EightNeighbours` | src/waves.rs:98-102 | With the test `u == 0 && v == 0` the loops examine exactly the eight offsets other than `(0, 0)` |
| `Waves.WaveScreen.constructor` | src/waves.rs:47-56 | Both maps have `width * height` cells: the current one noise, the previous one zero |
| `Waves.WaveScreen.Reset` | src/waves.rs:58-62 | The current map is replaced by fresh noise of the same length, and the previous map is untouched |
| `Waves.WaveScreen.Click` | src/waves.rs:142-144 | A click is a reset |
| `Waves.Cell` | src/waves.rs:90-116 | The new value of cell `i` is the rule applied to its index, its own previous value and, in order, the previous values of its neighbours at the offsets `Offsets(t)` lists: six for the code as written, eight for the corrected test |
| `Waves.WaveScreen.NeighbourValues` | src/waves.rs:96-116 | The nested `u`/`v` loops, skipping the offsets the test `t` holds of, read in loop order the previous value of every neighbour they examine. With `AsWritten`, the test `u == 0 && u == 0` of the code, that is the six offsets of `Waves.AsWrittenSkipsColumn`; with `Intended` it is the eight of `Waves.EightNeighbours` |
| `Waves.WaveScreen.UpdateCell` | src/waves.rs:90-124 | The body of the inner loop sets the cell at `(x, y)` to `Cell` under the same test `t`, the rule applied to the previous map, and changes no other cell |
| `Waves.WaveScreen.Draw` | src/waves.rs:84-127 | The maps are swapped, and every index in `[0, width * height)` of the new current map is recomputed. Each cell gets the rule applied to its own previous value and the previous values of the neighbours the test `t` lets through. `Draw(AsWritten, _)` is the code as written; `Draw(Intended, _)` is the corrected version |
| `Waves.CentreAsWritten` | src/waves.rs:98-108 | On a 3×3 grid the code as written gives the centre cell the values of cells 0, 3, 6, 2, 5 and 8, never those of cell 1 above it or cell 7 below it |
| `Waves.CentreIntended` | src/waves.rs:98-108 | With the test `u == 0 && v == 0` the centre of a 3×3 grid gets all eight other cells, in loop order |

## Left out

- GPIO pin setup, `poll_interrupts` and its one-second timeout are hardware I/O. A poll that times out or fails is the `Timeout` interrupt.
- Rotary.PressEvent: the time source of the button hold loop is out. Elapsed time is modelled as the number of 100 ms sleeps, so sleep overshoot and scheduling delay are not represented, and the model decides on eleven reads. With real delays the press can become long earlier. If the ten sleeps and the reads take 1001 ms or more in total (`as_millis()` counts whole milliseconds), the check after the tenth sleep fires without an eleventh read, so a press whose first ten reads (about 900 ms) find the button down is a LongPress. With less than 1 ms of total overshoot the loop decides on the eleventh read, as modelled. If every sleep overshoots by 12 ms or more, the check after the ninth sleep already fires.
- Rotary.HandleButtonPress: the loop's `decreases` relies on the model's bound of 11 polls. The real loop is bounded by the clock.
- Thread spawning, the mpsc channel and signal trapping are out. So are the shutdown flag and the loop-exit checks. The channel from the decoder is a sequence the decoder appends to. The render loop receives the sequence of `try_recv` results, one per frame.
- The mailbox's mutex and lock poisoning are out. The model is sequential; a poisoned lock, which makes `put`/`if_new` return an error, is not represented.
- All drawing is out: the LED matrix, canvas, images, text, the border rectangle, `draw_maze` and `draw_pixels`. These are foreign display calls. A frame reports which screen draws, whether the border is drawn, the backdrop, and the text column.
- The sensor thread, I2C, HTTP image download, BMP decoding and the clock string are hardware, network and foreign libraries. A reading is a flag (its CO2 value is a number) and the formatted text.
- Background.BackgroundScreen.Draw: the formatted sensor text is an input, since the float formatting is not modelled. The scroll arithmetic uses unbounded integers, without `i32`/`usize` overflow, which needs billions of frames.
- Maze generation (`maze_generator`) and the random number generator are out. The generated layout and the random direction order are parameters. The generator is assumed to keep the requested size, which the model states by construction. The 400 ms sleep before a reset is also out.
- The floating-point parts of the waves are out: the update rule with its random draws and thresholds, the neighbour count `n`, the averaging and the clamp to 1.0, `clamp`, `shift_color` and the hue. The rule is the parameter `update`, and Left/Right on the wave screen, which only change the hue, are not modelled.
- Waves.WaveScreen.NeighbourValues: Draw reads the examined neighbours of every cell. The source reads them only when the cell's previous value is below a random threshold, and that test belongs to the float rule `update`, which may ignore them.
- Waves.WaveScreen.Draw: it uses the map's own `width` and `height`, where the source takes them from the canvas. `new` sizes the maps from the same canvas.
- Dispatcher: the screens are not objects. A frame records the call forwarded to the active screen, and the screen models above give each call's effect.
- `xy_to_index`'s panics on a non-positive width or a negative coordinate are preconditions. No caller can trigger them: every call passes grid or wrapped coordinates. `i32` overflow of `y * width + x` is not modelled.
- src/screens/mod.rs declares the `Screen` trait (`left`, `right`, `click`, `draw`) and the screen modules. The trait is not modelled as a type: `Dispatcher.ScreenCall` stands for its three input calls, and each screen class has the matching methods.

## Findings

| source | as written | input that shows it | evidently intended | confidence | as-written member | corrected member |
|---|---|---|---|---|---|---|
| src/waves.rs:100 | `if u == 0 && u == 0 { continue; }` skips every offset with `u == 0`, so only six neighbours are examined | the cell's neighbours at offsets `(0, -1)` and `(0, 1)` (directly above and below) are never read | `u == 0 && v == 0`, which skips only the cell itself and examines all eight neighbours | high (not executed; follows from the loop bounds) | `Waves.AsWrittenSkipsColumn`, `Waves.CentreAsWritten` (`Waves.WaveScreen.Draw` with `AsWritten`) | `Waves.EightNeighbours`, `Waves.CentreIntended` (`Waves.WaveScreen.Draw` with `Intended`) |
