# rust-oids application core in Dafny

This project models the application layer of rust-oids, an artificial-life
simulation. The model covers two Rust files.

- **`src/app/capture.rs`**: the screen-capture subsystem. While recording, each frame's
  framebuffer readback is given the next sequence number. It is handed to a background
  job that flips its rows and saves it as `{prefix}{seq:08}.png`. When recording stops,
  `flush` saves the images in the pending list. Nothing in `capture.rs` ever adds to that
  list, so in every reachable state it is empty and a flush saves nothing
  (`NothingPending`). The flush numbering is still proved for any pending list.
- **`src/app/mod.rs`**: the frame driver `App`. It dispatches domain events: camera moves,
  light and background selectors, quitting, spawning minions and resources. It maps
  held and once-pressed keys and the mouse to events. It runs one frame per `update`:
  clock, camera, input, then the subsystems.

Modules, one per file:

| file | module | what it holds |
|---|---|---|
| `filenames.dfy` | `Filenames` | the `{:08}` frame name, reading it back, and its lexicographic order |
| `row_flip.dfy` | `RowFlip` | the bottom-up readback turned into a top-down image, and the `array2` fill of the background job |
| `capture.dfy` | `ScreenCapture` | `State` and its member functions, which specify each operation; class `Capture`, whose methods update its fields in place |
| `cycle.dfy` | `Cycles` | the circular selector behind the light and background lists |
| `events.dfy` | `Events` | positions and the domain events |
| `input.dfy` | `Input` | key and mouse state to events: the `on_key_held!` / `on_key_pressed_once!` tables, plus the mouse tests |
| `world.dfy` | `Worlds` | the part of `World` the driver uses: fresh identities and lookup |
| `app.dfy` | `AppDriver` | `AppState` and its member functions, which specify the driver; class `App`, whose methods update its fields in place |
| `arithmetic.dfy`, `wrappers.dfy` | `Arithmetic`, `Wrappers` | division and multiplication facts; `Option` / `Result` |

Effects that leave the process are recorded in logs instead of being performed.

- **Capture `writes`:** one entry per file the capture subsystem writes, in the order the
  frame numbers are given out. A `Spawned` entry is a background encode job and a `Saved`
  entry is an image saved by `flush`. Frame `n` goes to `FramePath(n)`.
- **App `trace`:** one `Call` per call that changes the camera or a subsystem, in call order.
  The camera-position read during input collection changes nothing and is not recorded.

Clock reads, the camera position, the result of creating the capture directory, and the
next input state are all parameters.

## Model

| member | source | states |
|---|---|---|
| Filenames.Padded | src/app/capture.rs:57 | the `{:08}` field is all digits and at least eight characters, and when it is longer than eight it has no leading zero |
| Filenames.FrameName | src/app/capture.rs:57 | the name is the prefix, then the padded digits, then `.png` |
| Filenames.PaddedValue | src/app/capture.rs:57 | the `{:08}` digit field denotes the number: zero padding does not change the value |
| Filenames.PaddedWidth | src/app/capture.rs:57 | below 10^8 the digit field is exactly eight characters |
| Filenames.ParseFrameNameRoundTrip | src/app/capture.rs:57 | reading the number back from `prefix + {:08} + ".png"` gives the number the name was made from |
| Filenames.FrameNameInjective | src/app/capture.rs:57 | different sequence numbers give different file names |
| Filenames.FrameNameOrder | src/app/capture.rs:57 | for numbers below 10^8, name order is number order, in both directions |
| Filenames.FrameNameOrderEndsAtEightDigits | src/app/capture.rs:57 | at 10^8 the order breaks: frame 100000000 sorts before frame 99999999 |
| RowFlip.SourceInBounds | src/app/capture.rs:44-68 | every byte the job reads for pixel (i, j) lies inside the `w * h * 3` readback buffer |
| RowFlip.SourceThenTarget | src/app/capture.rs:63-69 | image position to readback pixel is injective: the pixel's target is the position it came from |
| RowFlip.TargetThenSource | src/app/capture.rs:63-69 | every readback pixel is the source of exactly one image position, so the flip is a bijection |
| RowFlip.Flipped | src/app/capture.rs:62-71 | the image the job builds has h rows of w pixels; `Render` and `Encode` are proved against it |
| RowFlip.BufferSize | src/app/capture.rs:44 | the readback buffer holds a whole number of RGB pixels: three bytes for each of the w * h pixels |
| RowFlip.FlippedPixel | src/app/capture.rs:65-69 | image pixel (i, j) is the three bytes of readback pixel j + (h - 1 - i) * w |
| RowFlip.FlippedMirrorsRows | src/app/capture.rs:62-71 | image row i (from the top) is readback row h - 1 - i (OpenGL rows from the bottom) |
| RowFlip.TwoByTwoRow | src/app/capture.rs:62-71 | in a 2x2 frame, image row i holds readback pixels 2 - 2i and 3 - 2i |
| RowFlip.TwoByTwo | src/app/capture.rs:62-71 | for a 2x2 frame the saved top row is the second readback row, and the bottom row the first |
| RowFlip.Render | src/app/capture.rs:62-71 | the nested loops fill an h-by-w image whose every pixel is the flipped readback pixel |
| ScreenCapture.JoinInjective | src/app/capture.rs:58 | joining two names of the same kind (both relative or both absolute) onto one directory gives different paths for different names |
| ScreenCapture.JoinKindsCollide | src/app/capture.rs:58 | the same-kind condition is needed: `Join("/x", "y")` and `Join("/x", "/x/y")` are one path |
| ScreenCapture.JoinCases | src/app/capture.rs:32 | an empty base and a base ending in `/` add no separator, a plain base adds one, and an absolute name replaces the base |
| ScreenCapture.Join | src/app/capture.rs:58 | `PathBuf::join` on Unix: an absolute name is the whole result; a relative name follows the directory, after one `/` exactly when the directory is non-empty and does not already end in one, so a non-empty directory and the name are always separated by a `/` |
| ScreenCapture.Config.FramePath | src/app/capture.rs:57-58 | the full path of frame n ends with the frame name `FrameName(prefix, n)`; it starts with the capture directory unless the prefix is absolute, in which case it is the frame name alone |
| ScreenCapture.FrameNameKind | src/app/capture.rs:57 | a frame name is absolute exactly when its prefix is, because the digits never start with `/` |
| ScreenCapture.Encode | src/app/capture.rs:61-71 | the job's image has the grab's size, and its row i is readback row h - 1 - i |
| ScreenCapture.FlushWrites | src/app/capture.rs:81-87 | a flush makes one save per pending image |
| ScreenCapture.FlushWritesNumbered | src/app/capture.rs:81-87 | a flush saves exactly the pending images, in order, image k under number start + k + 1 |
| ScreenCapture.FlushWriteAt | src/app/capture.rs:81-87 | pending image k is saved under number start + k + 1 |
| ScreenCapture.FlushExtends | src/app/capture.rs:78-96 | a flush appends its saves after the earlier writes, takes back none, and keeps the numbering valid |
| ScreenCapture.State.Grab | src/app/capture.rs:42-76 | while disabled nothing changes; while enabled the number goes up by one and one job is spawned under the new number; validity is kept |
| ScreenCapture.State.Flush | src/app/capture.rs:78-96 | with the directory created, each pending image takes the next number; without it, nothing is saved and the number is unchanged; the pending list is empty either way |
| ScreenCapture.State.Start | src/app/capture.rs:106 | recording is on and nothing else changes |
| ScreenCapture.State.Stop | src/app/capture.rs:109-114 | recording ends off; it flushes only if it was on, and a stop while off changes nothing |
| ScreenCapture.State.Toggle | src/app/capture.rs:118-124 | the recording flag is inverted and validity is kept; turning on changes nothing else, and turning off is a flush followed by clearing the flag |
| ScreenCapture.State.Enable | src/app/capture.rs:99-103 | recording ends in the requested state; asking for the current state changes nothing; switching on only sets the flag, with no flush, and switching off flushes then clears it |
| ScreenCapture.Initial | src/app/capture.rs:30-38 | capture starts at number 0, disabled, with nothing pending and nothing written |
| ScreenCapture.InitialValid | src/app/capture.rs:30-38 | the initial state (number 0, off, nothing pending, nothing written) is valid |
| ScreenCapture.ApplyGrows | src/app/capture.rs:56 | no single operation lowers the sequence number or takes back a write |
| ScreenCapture.RunGrows | src/app/capture.rs:56 | over any run of operations the sequence number never decreases, so numbering continues across stop/start |
| ScreenCapture.RunKeepsValid | src/app/capture.rs:42-124 | any run of operations keeps write k numbered k + 1, with full readbacks |
| ScreenCapture.NothingPending | src/app/capture.rs:20-124 | no operation adds a pending image, so from the initial state the pending list stays empty |
| ScreenCapture.DistinctPaths | src/app/capture.rs:56-58 | in a valid state no two writes target the same file |
| ScreenCapture.FramePathInjective | src/app/capture.rs:56-58 | different frame numbers are written to different files, whatever the directory and prefix |
| ScreenCapture.EnableTwice | src/app/capture.rs:99-103 | `enable(b)` twice in a row acts once |
| ScreenCapture.FirstGrabName | src/app/capture.rs:56-58 | starting and grabbing once writes exactly one job, to `Join(dir, prefix + "00000001.png")` |
| ScreenCapture.Capture.Init | src/app/capture.rs:25-39 | the directory is the timestamp inside the capture folder; the frame size is the window's; the state is the initial one |
| ScreenCapture.Capture.ScreenGrab | src/app/capture.rs:42-76 | updates the fields as `State.Grab` prescribes and keeps validity |
| ScreenCapture.Capture.Flush | src/app/capture.rs:78-96 | the loop saves image k under the next number, updating the fields as `State.Flush` prescribes |
| ScreenCapture.Capture.Enable | src/app/capture.rs:99-103 | updates the fields as `State.Enable` prescribes |
| ScreenCapture.Capture.Start | src/app/capture.rs:106 | updates the fields as `State.Start` prescribes |
| ScreenCapture.Capture.Stop | src/app/capture.rs:109-114 | updates the fields as `State.Stop` prescribes |
| ScreenCapture.Capture.Enabled | src/app/capture.rs:116 | returns the recording flag |
| ScreenCapture.Capture.Toggle | src/app/capture.rs:118-124 | updates the fields as `State.Toggle` prescribes |
| Cycles.Cycle.Get | src/app/mod.rs:325-327 | `get` returns the list entry at the current index |
| Cycles.Cycle.Next | src/app/mod.rs:171-173 | `next` stays a valid selector over the same list |
| Cycles.Cycle.Prev | src/app/mod.rs:174-176 | `prev` stays a valid selector over the same list |
| Cycles.New | src/app/mod.rs:124-144 | a new selector stands on the first value of its list |
| Cycles.NextPrev | src/app/mod.rs:171-182 | `next` then `prev`, or `prev` then `next`, gives back the selector |
| Cycles.AdvanceIndex | src/app/mod.rs:171-173 | k steps forward move the index k places modulo the list length |
| Cycles.FullTurn | src/app/mod.rs:171-173 | as many steps as the list is long return the selector to where it started |
| Worlds.Empty | src/app/mod.rs:103 | `World::new` holds no entity and is valid |
| Worlds.World.NewMinion | src/app/mod.rs:151-152 | the minion is stored under an identity not in use, and the world stays valid |
| Worlds.World.NewResource | src/app/mod.rs:146-147 | the resource is stored under an identity not in use, and the world stays valid |
| Worlds.World.FriendMut | src/app/mod.rs:157 | finds an entity exactly when the identity is stored |
| Input.Collect | src/app/mod.rs:210-236 | one expansion of a key macro pushes at most one event per table entry |
| Input.CollectSnoc | src/app/mod.rs:210-221 | the macro's tests run in list order: one more entry pushes its event at the end |
| Input.CollectSpec | src/app/mod.rs:210-236 | a key table pushes entry i's event exactly when entry i's key is down, in table order, each at most once |
| Input.CollectMembers | src/app/mod.rs:210-236 | over a table of strictly increasing event ranks, entry i's event is pushed exactly when entry i's key is down (both directions) |
| Input.MouseEvents | src/app/mod.rs:242-252 | the mouse tests push, in order, at most a spawn and a light move, after every key event |
| Input.Translate | src/app/mod.rs:207-254 | the collected events come in test order, each at most once |
| Input.WorldPosition | src/app/mod.rs:261-263 | `to_world`: the world position is the raw mouse position plus the camera offset, coordinate by coordinate; the viewport transform `to_view` is not applied to it |
| Input.HeldTriggered | src/app/mod.rs:222-227 | the held-key table yields exactly the camera moves whose arrow key is held |
| Input.OnceTriggered | src/app/mod.rs:229-236 | the pressed-once table yields exactly reload, light, background and quit for F5, L, B, K, V, Esc |
| Input.MouseTriggered | src/app/mod.rs:238-252 | a right click spawns a minion with ctrl and a resource without; a held left button moves the light; all at mouse + camera |
| Input.TranslateExactly | src/app/mod.rs:207-254 | an event is collected exactly when its key condition holds |
| Input.TranslateDetermined | src/app/mod.rs:207-254 | any ordered, repeat-free list of exactly the triggered events equals the collected list |
| AppDriver.WallElapsed | src/app/mod.rs:367 | the wall-clock time is the time since start, or zero when the clock reads earlier |
| AppDriver.NewApp | src/app/mod.rs:92-118 | running, frame count 0, no elapsed time, light at (10, 10), first light and first background, empty world, no calls made |
| AppDriver.AppState.CurrentEnvironment | src/app/mod.rs:323-329 | the light and background are the entries the two selectors currently stand on, and the light position is the current one |
| AppDriver.AppState.Quit | src/app/mod.rs:195-197 | the running flag clears and nothing else changes |
| AppDriver.AppState.OnInputEvent | src/app/mod.rs:203-205 | only the input state changes |
| AppDriver.AppState.Register | src/app/mod.rs:156-159 | physics is handed the entity stored under the identity; the identity must be stored (the `unwrap`) |
| AppDriver.AppState.CreateMinion | src/app/mod.rs:151-154 | the world gains the minion under its new identity, which is then registered with physics |
| AppDriver.AppState.CreateResource | src/app/mod.rs:146-149 | the world gains the resource under its new identity, which is then registered with physics |
| AppDriver.AppState.OnAppEvent | src/app/mod.rs:161-193 | the driver stays valid and its clock, viewport and input are untouched. Each camera event adds exactly its one camera call. Light steps change only the light selector, and background steps only the background selector. Only `AppQuit` stops the driver, and only `MoveLight` moves the light. Only spawn events add entities, each as `new_minion` / `new_resource`. `Reload` and unmatched events change nothing |
| AppDriver.AppState.Resize | src/app/mod.rs:265-267 | the new width and height are set, the scale is kept, and nothing else changes |
| AppDriver.AppState.InitSystems | src/app/mod.rs:342-350 | initialises animation, AI, game, then physics |
| AppDriver.AppState.UpdateSystems | src/app/mod.rs:331-340 | updates animation and game, tells the AI to follow the current light, then updates AI and physics |
| AppDriver.AppState.Update | src/app/mod.rs:352-374 | fails, changing nothing, exactly when the clock reads before the frame start; otherwise the frame time is added, the frame restarts, camera then systems run, the frame is counted, and the report agrees with the new state |
| AppDriver.LightStepsUndo | src/app/mod.rs:171-176 | `NextLight` then `PrevLight` (or the reverse) restores the driver |
| AppDriver.BackgroundStepsUndo | src/app/mod.rs:177-182 | `NextBackground` then `PrevBackground` (or the reverse) restores the driver |
| AppDriver.NextLightsTurn | src/app/mod.rs:124-134 | k light steps only move the light selector, and nine of them bring back the starting light |
| AppDriver.LightAfterPresses | src/app/mod.rs:124-134 | from a new driver, after k light presses the environment shows light k modulo nine and still the first background |
| AppDriver.QuitStops | src/app/mod.rs:186 | `AppQuit` only clears the running flag, and a second one changes nothing |
| AppDriver.SpawnRegistersNewEntity | src/app/mod.rs:189-190 | a spawn event adds one entity under an identity not in use and registers exactly that identity |
| AppDriver.ResizeKeepsScale | src/app/mod.rs:265-267 | a resize keeps the scale, and the last resize wins |
| AppDriver.UpdateIgnoresInput | src/app/mod.rs:254 | neither the input state nor the camera position changes what an update does: the collected events are dropped |
| AppDriver.EscapeDoesNotQuit | src/app/mod.rs:235 | with Esc pressed the collected list contains `AppQuit`, yet the driver is still running after the update |
| AppDriver.TicksAccumulate | src/app/mod.rs:352-364 | over updates whose three clock reads coincide, at non-decreasing instants, each counts one frame, and the accumulated frame time grows by exactly the time since the first frame start |
| AppDriver.App.constructor | src/app/mod.rs:92-118 | the fields are those of `NewApp` |
| AppDriver.App.Quit | src/app/mod.rs:195-197 | updates the fields as `AppState.Quit` prescribes |
| AppDriver.App.IsRunning | src/app/mod.rs:199-201 | returns the running flag |
| AppDriver.App.OnInputEvent | src/app/mod.rs:203-205 | updates the fields as `AppState.OnInputEvent` prescribes |
| AppDriver.App.Register | src/app/mod.rs:156-159 | updates the fields as `AppState.Register` prescribes |
| AppDriver.App.NewMinion | src/app/mod.rs:151-154 | updates the fields as `AppState.CreateMinion` prescribes |
| AppDriver.App.NewResource | src/app/mod.rs:146-149 | updates the fields as `AppState.CreateResource` prescribes |
| AppDriver.App.OnAppEvent | src/app/mod.rs:161-193 | updates the fields as `AppState.OnAppEvent` prescribes |
| AppDriver.App.UpdateInput | src/app/mod.rs:207-254 | returns the collected events, which are `Translate` of the input and camera |
| AppDriver.App.OnKeys | src/app/mod.rs:210-221 | one macro expansion: the loop pushes, in table order, the events whose keys are down |
| AppDriver.App.OnResize | src/app/mod.rs:265-267 | updates the fields as `AppState.Resize` prescribes |
| AppDriver.App.InitSystems | src/app/mod.rs:342-350 | updates the fields as `AppState.InitSystems` prescribes |
| AppDriver.App.UpdateSystems | src/app/mod.rs:331-340 | updates the fields as `AppState.UpdateSystems` prescribes |
| AppDriver.App.Update | src/app/mod.rs:352-374 | returns the result and updates the fields as `AppState.Update` prescribes |
| AppDriver.App.CurrentEnvironment | src/app/mod.rs:323-329 | returns the environment of the current state |

## Left out

- The OpenGL readback (`gl::ReadPixels`) is a parameter of the grab. The window size and the timestamp are parameters of `Capture.Init`. The `CAPTURE_*` constants come from `app::constants`, which is not part of this model.
- The background job runs concurrently (`rayon::spawn`) in the source. The model records it as a `Spawned` write when its number is assigned, and `Encode` / `Render` give the image it saves. Completion order and concurrency are not modelled.
- PNG encoding, file writes and `create_dir_all` are left out. Whether the directory could be created is the `dirCreated` parameter. The panic when a save fails and the log lines are also left out.
- ScreenCapture.Capture.ScreenGrab: records the job by its frame number. The path string built at capture.rs:57-58 is that write's `Path`, and `Filenames` and `FirstGrabName` state its format.
- The `usize` sequence number, the `u32` frame count and the `u32` index arithmetic of the readback are unbounded here. Wrap-around and overflow panics are not modelled.
- Floating point (`f32` times, colours and positions) is modelled as `real`, without rounding.
- `MovingAverage` is not part of this model. The report omits `frame_time_smooth` and `fps`, and the `dt` passed to the camera, input and subsystems is not recorded.
- `Inertial`, the camera, is not part of this model. Its `push`, `reset` and `update` calls appear only in the trace, and its position is a parameter of `update`.
- `Viewport::to_world`, `to_view` (whose result `update_input` never uses) and `ratio` are float geometry and are left out. `on_resize` is modelled on width, height and scale.
- `Cycle` is not part of this model. It is modelled as a non-empty list with an index that starts at 0 and wraps on `next` / `prev`.
- `World` is not part of this model. It is modelled as a map from fresh identities, covering only what `mod.rs` calls.
- `InputState` is not part of this model. `InputState::event` becomes a new-state parameter of `on_input_event`. Any state change `key_once` makes when it reads a key is not modelled, so `update` leaves the input state as it was.
- The subsystems (physics, animation, game, AI) are not part of this model. Their effect on the world is left out, and each call only appears in the trace.
- `SystemTime` reads are parameters: `App::new`'s two reads are one instant, and `update`'s three reads are the three fields of `Readings`.
- AppDriver.TicksAccumulate: is stated only for updates whose three clock reads coincide. When the new frame start (`restartAt`) is read after the elapsed time (`elapsedAt`), the time between the two reads is counted in no frame, and `frame_elapsed` falls behind the wall clock. `Update`'s own contract covers that general case.
- The camera-position read in `update_input` (mod.rs:240, 262) is not recorded in the trace, because it changes nothing. So the trace of an update shows the camera update followed directly by the subsystem calls.
- Rendering (`render`, `render_minions`, `render_hud`, `from_transform`, `from_position`), `run` and the main loop are left out.
