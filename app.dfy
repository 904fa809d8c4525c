/**
 * The frame driver `App` (src/app/mod.rs): it owns the world, the light and
 * background selectors, the light position and the frame clock, dispatches
 * domain events, and runs one frame of camera, input and subsystems per
 * `update`.  Camera and subsystem calls are not modelled by their effect: each
 * is appended, as a `Call`, to a `trace`, so the order of the calls is part of
 * the state.  Clock reads are parameters.
 */
module AppDriver {
  import opened Wrappers
  import opened Cycles
  import opened Events
  import opened Worlds
  import Input

  /** An RGBA colour, `[f32; 4]`. */
  datatype Color = Color(r: real, g: real, b: real, a: real)

  /** The light intensities `init_lights` cycles through, mod.rs:125-133. */
  const LightColors: seq<Color> := [
    Color(1.0, 1.0, 1.0, 1.0),
    Color(3.1, 3.1, 3.1, 1.0),
    Color(10.0, 10.0, 10.0, 1.0),
    Color(31.0, 31.0, 31.0, 1.0),
    Color(100.0, 100.0, 100.0, 1.0),
    Color(0.001, 0.001, 0.001, 1.0),
    Color(0.01, 0.01, 0.01, 1.0),
    Color(0.1, 0.1, 0.1, 1.0),
    Color(0.31, 0.31, 0.31, 0.5)]

  /** The background colours `init_backgrounds` cycles through, mod.rs:137-143. */
  const BackgroundColors: seq<Color> := [
    Color(0.05, 0.07, 0.1, 1.0),
    Color(0.5, 0.5, 0.5, 0.5),
    Color(1.0, 1.0, 1.0, 1.0),
    Color(3.1, 3.1, 3.1, 1.0),
    Color(10.0, 10.0, 10.0, 1.0),
    Color(0.0, 0.0, 0.0, 1.0),
    Color(0.01, 0.01, 0.01, 1.0)]

  /** The light position `App::new` starts with. */
  const InitialLight := Position(10.0, 10.0)

  datatype Viewport = Viewport(width: nat, height: nat, scale: real)

  datatype Direction = Up | Down | Left | Right

  /** A call into the camera or a subsystem, in the order the driver makes it. */
  datatype Call =
    | CameraPush(dir: Direction)
    | CameraReset
    | CameraUpdate
    | AnimationInit | AiInit | GameInit | PhysicsInit
    | AnimationUpdate | GameUpdate | AiFollowMe(target: Position) | AiUpdate | PhysicsUpdate
    | PhysicsRegister(id: Id, entity: Entity)

  /** The three clock reads of one `update`: `frame_start.elapsed()`, the new
      `frame_start`, and `wall_clock_start.elapsed()`, as instants in seconds. */
  datatype Readings = Readings(elapsedAt: real, restartAt: real, wallAt: real)

  /** `SystemTimeError`: the clock reads earlier than the frame start, by `behind` seconds. */
  datatype ClockError = ClockError(behind: real)

  /** `Update`, the per-frame report (without the smoothed frame time and fps). */
  datatype Report = Report(frameCount: nat, wallClockElapsed: real, frameElapsed: real, frameTime: real)

  datatype Environment = Environment(light: Color, lightPosition: Position, background: Color)

  /** The calls `init_systems` makes, mod.rs:342-350. */
  const InitOrder: seq<Call> := [AnimationInit, AiInit, GameInit, PhysicsInit]

  /** The calls `update_systems` makes, mod.rs:331-340; the AI follows `light`. */
  function UpdateOrder(light: Position): seq<Call>
  {
    [AnimationUpdate, GameUpdate, AiFollowMe(light), AiUpdate, PhysicsUpdate]
  }

  /** `wall_clock_start.elapsed().unwrap_or_else(|_| 0)`. */
  function WallElapsed(start: real, at: real): (d: real)
    ensures d >= 0.0
    ensures at >= start ==> d == at - start
    ensures at < start ==> d == 0.0
  {
    if at < start then 0.0 else at - start
  }

  datatype AppState = AppState(
    viewport: Viewport,
    input: Input.InputState,
    wallClockStart: real,
    frameCount: nat,
    frameStart: real,
    frameElapsed: real,
    isRunning: bool,
    lightPosition: Position,
    lights: Cycle<Color>,
    backgrounds: Cycle<Color>,
    world: World,
    trace: seq<Call>)
  {
    /** The selectors stay over their fixed lists, and the world hands out fresh identities. */
    predicate Valid()
    {
      lights.Valid() && lights.items == LightColors
      && backgrounds.Valid() && backgrounds.items == BackgroundColors
      && world.Valid()
    }

    /** `environment`: the current light, its position, and the current background. */
    function CurrentEnvironment(): (env: Environment)
      requires Valid()
      ensures env.light == LightColors[lights.index] && env.background == BackgroundColors[backgrounds.index]
      ensures env.lightPosition == lightPosition
    {
      Environment(lights.Get(), lightPosition, backgrounds.Get())
    }

    /** `quit`: only the running flag changes. */
    function Quit(): (s: AppState)
      ensures !s.isRunning && s.(isRunning := isRunning) == this
    {
      this.(isRunning := false)
    }

    /** `on_input_event`: the input state becomes `next`, what `InputState::event` made of the event. */
    function OnInputEvent(next: Input.InputState): (s: AppState)
      ensures s.input == next && s.(input := input) == this
    {
      this.(input := next)
    }

    /** `register`: the physics subsystem is handed the entity stored under `id`;
        the `unwrap` demands that there is one. */
    function Register(id: Id): (s: AppState)
      requires id in world.entities
      ensures s == this.(trace := trace + [PhysicsRegister(id, world.entities[id])])
    {
      var found := world.FriendMut(id);
      this.(trace := trace + [PhysicsRegister(id, found.value)])
    }

    /** `new_minion`: store a minion and register it under its new identity. */
    function CreateMinion(pos: Position): (s: AppState)
      requires Valid()
      ensures s.Valid()
      ensures var (w, id) := world.NewMinion(pos);
        s == this.(world := w, trace := trace + [PhysicsRegister(id, Minion(pos))])
    {
      var (w, id) := world.NewMinion(pos);
      this.(world := w).Register(id)
    }

    /** `new_resource`: store a resource and register it under its new identity. */
    function CreateResource(pos: Position): (s: AppState)
      requires Valid()
      ensures s.Valid()
      ensures var (w, id) := world.NewResource(pos);
        s == this.(world := w, trace := trace + [PhysicsRegister(id, Resource(pos))])
    {
      var (w, id) := world.NewResource(pos);
      this.(world := w).Register(id)
    }

    /** `on_app_event`: what each domain event does to the driver. */
    function OnAppEvent(e: Event): (s: AppState)
      requires Valid()
      ensures s.Valid()
      ensures s.isRunning <==> isRunning && !e.AppQuit?
      ensures s.viewport == viewport && s.input == input && s.wallClockStart == wallClockStart
      ensures s.frameCount == frameCount && s.frameStart == frameStart && s.frameElapsed == frameElapsed
      ensures s.lightPosition == (if e.MoveLight? then e.pos else lightPosition)
      ensures s.world.entities.Keys == world.entities.Keys <==> !(e.NewMinion? || e.NewResource?)
      ensures s.lights == (if e.NextLight? then lights.Next() else if e.PrevLight? then lights.Prev() else lights)
      ensures s.backgrounds ==
        (if e.NextBackground? then backgrounds.Next() else if e.PrevBackground? then backgrounds.Prev() else backgrounds)
      ensures (e.Reload? || e.Other?) ==> s == this
      ensures (e.NextLight? || e.PrevLight?) ==> s == this.(lights := s.lights)
      ensures (e.NextBackground? || e.PrevBackground?) ==> s == this.(backgrounds := s.backgrounds)
      ensures e.MoveLight? ==> s == this.(lightPosition := e.pos)
      ensures e.CamUp? ==> s == this.(trace := trace + [CameraPush(Direction.Up)])
      ensures e.CamDown? ==> s == this.(trace := trace + [CameraPush(Direction.Down)])
      ensures e.CamLeft? ==> s == this.(trace := trace + [CameraPush(Direction.Left)])
      ensures e.CamRight? ==> s == this.(trace := trace + [CameraPush(Direction.Right)])
      ensures e.CamReset? ==> s == this.(trace := trace + [CameraReset])
      ensures e.NewMinion? ==> s == CreateMinion(e.pos)
      ensures e.NewResource? ==> s == CreateResource(e.pos)
    {
      match e
      case CamUp => this.(trace := trace + [CameraPush(Direction.Up)])
      case CamDown => this.(trace := trace + [CameraPush(Direction.Down)])
      case CamLeft => this.(trace := trace + [CameraPush(Direction.Left)])
      case CamRight => this.(trace := trace + [CameraPush(Direction.Right)])
      case CamReset => this.(trace := trace + [CameraReset])
      case NextLight => this.(lights := lights.Next())
      case PrevLight => this.(lights := lights.Prev())
      case NextBackground => this.(backgrounds := backgrounds.Next())
      case PrevBackground => this.(backgrounds := backgrounds.Prev())
      case Reload => this
      case AppQuit => Quit()
      case MoveLight(pos) => this.(lightPosition := pos)
      case NewMinion(pos) => CreateMinion(pos)
      case NewResource(pos) => CreateResource(pos)
      case Other => this
    }

    /** `on_resize`: new dimensions, the scale kept. */
    function Resize(width: nat, height: nat): (s: AppState)
      ensures s.viewport == Viewport(width, height, viewport.scale)
      ensures s.(viewport := viewport) == this
    {
      this.(viewport := Viewport(width, height, viewport.scale))
    }

    /** `init_systems`: animation, AI, game, then physics, each once. */
    function InitSystems(): (s: AppState)
      ensures s == this.(trace := trace + InitOrder)
    {
      this.(trace := trace + InitOrder)
    }

    /** `update_systems`: animation, game, then the AI told to follow the light and
        updated, then physics. */
    function UpdateSystems(): (s: AppState)
      ensures s == this.(trace := trace + UpdateOrder(lightPosition))
    {
      this.(trace := trace + UpdateOrder(lightPosition))
    }

    /** `update`: fails, changing nothing, when the clock reads earlier than the frame
        start; otherwise accounts the frame time, restarts the frame, updates the
        camera, collects (and drops) the input events, runs the subsystems and counts
        the frame. */
    function Update(r: Readings, camera: Position): (res: (Result<Report, ClockError>, AppState))
      ensures res.0.Failure? <==> r.elapsedAt < frameStart
      ensures res.0.Failure? ==> res.0.error.behind > 0.0 && res.1 == this
      ensures Valid() ==> res.1.Valid()
      ensures res.0.Success? ==>
        var (rep, s) := (res.0.value, res.1);
        && rep.frameTime == r.elapsedAt - frameStart >= 0.0
        && s.frameCount == frameCount + 1 == rep.frameCount
        && s.frameElapsed == frameElapsed + rep.frameTime == rep.frameElapsed
        && s.frameStart == r.restartAt
        && rep.wallClockElapsed == WallElapsed(wallClockStart, r.wallAt)
        && s.trace == trace + [CameraUpdate] + UpdateOrder(lightPosition)
        && s == this.(frameCount := s.frameCount, frameElapsed := s.frameElapsed,
                      frameStart := s.frameStart, trace := s.trace)
    {
      if r.elapsedAt < frameStart then
        (Failure(ClockError(frameStart - r.elapsedAt)), this)
      else
        var frameTime := r.elapsedAt - frameStart;
        var s := this.(frameElapsed := frameElapsed + frameTime, frameStart := r.restartAt,
                       trace := trace + [CameraUpdate]);
        var s := s.UpdateSystems();
        var s := s.(frameCount := s.frameCount + 1);
        (Success(Report(s.frameCount, WallElapsed(wallClockStart, r.wallAt), s.frameElapsed, frameTime)), s)
    }
  }

  /** `App::new`: running, no frame counted, the light at (10, 10), both selectors on
      their first colour, an empty world, and no call made yet.  Both clocks start at `now`. */
  function NewApp(width: nat, height: nat, scale: real, now: real): (s: AppState)
    ensures s.Valid() && s.isRunning
    ensures s.viewport == Viewport(width, height, scale) && s.input == Input.Idle()
    ensures s.frameCount == 0 && s.frameElapsed == 0.0 && s.frameStart == now && s.wallClockStart == now
    ensures s.CurrentEnvironment() == Environment(LightColors[0], InitialLight, BackgroundColors[0])
    ensures s.world.entities == map[] && s.trace == []
  {
    AppState(Viewport(width, height, scale), Input.Idle(), now, 0, now, 0.0, true, InitialLight,
             Cycles.New(LightColors), Cycles.New(BackgroundColors), Worlds.Empty(), [])
  }

  /** Stepping the light forward and back, or back and forward, restores the driver. */
  lemma LightStepsUndo(s: AppState)
    requires s.Valid()
    ensures s.OnAppEvent(NextLight).OnAppEvent(PrevLight) == s
    ensures s.OnAppEvent(PrevLight).OnAppEvent(NextLight) == s
  {
    NextPrev(s.lights);
  }

  /** Likewise for the background. */
  lemma BackgroundStepsUndo(s: AppState)
    requires s.Valid()
    ensures s.OnAppEvent(NextBackground).OnAppEvent(PrevBackground) == s
    ensures s.OnAppEvent(PrevBackground).OnAppEvent(NextBackground) == s
  {
    NextPrev(s.backgrounds);
  }

  /** `NextLight` taken `k` times. */
  function NextLights(s: AppState, k: nat): (t: AppState)
    requires s.Valid()
    ensures t.Valid()
  {
    if k == 0 then s else NextLights(s, k - 1).OnAppEvent(NextLight)
  }

  /** `k` presses of the light key only step the light selector, and nine of them
      bring back the light the driver started with. */
  lemma {:induction false} NextLightsTurn(s: AppState, k: nat)
    requires s.Valid()
    ensures NextLights(s, k) == s.(lights := Advance(s.lights, k))
    ensures NextLights(s, |LightColors|) == s
  {
    NextLightsAdvance(s, k);
    NextLightsAdvance(s, |LightColors|);
    FullTurn(s.lights);
  }

  lemma {:induction false} NextLightsAdvance(s: AppState, k: nat)
    requires s.Valid()
    ensures NextLights(s, k) == s.(lights := Advance(s.lights, k))
  {
    if k > 0 {
      NextLightsAdvance(s, k - 1);
    }
  }

  /** From a new driver, `k` presses of the light key show light `k` modulo the list length. */
  lemma {:induction false} LightAfterPresses(width: nat, height: nat, scale: real, now: real, k: nat)
    ensures NextLights(NewApp(width, height, scale, now), k).CurrentEnvironment().light
         == LightColors[k % |LightColors|]
    ensures NextLights(NewApp(width, height, scale, now), k).CurrentEnvironment().background
         == BackgroundColors[0]
  {
    var s := NewApp(width, height, scale, now);
    NextLightsTurn(s, k);
    AdvanceIndex(s.lights, k);
  }

  /** `AppQuit` stops the driver and touches nothing else; a second one changes nothing. */
  lemma QuitStops(s: AppState)
    requires s.Valid()
    ensures s.OnAppEvent(AppQuit) == s.(isRunning := false)
    ensures s.OnAppEvent(AppQuit).OnAppEvent(AppQuit) == s.OnAppEvent(AppQuit)
  {
  }

  /** A spawn event stores exactly one new entity, under an identity not in use, and
      registers that identity (and no other) with physics. */
  lemma SpawnRegistersNewEntity(s: AppState, e: Event)
    requires s.Valid() && (e.NewMinion? || e.NewResource?)
    ensures var t := s.OnAppEvent(e);
      var ent := if e.NewMinion? then Minion(e.pos) else Resource(e.pos);
      exists id ::
        && id !in s.world.entities
        && t.world.entities == s.world.entities[id := ent]
        && t.trace == s.trace + [PhysicsRegister(id, ent)]
  {
    var ent := if e.NewMinion? then Minion(e.pos) else Resource(e.pos);
    var (w, id) := if e.NewMinion? then s.world.NewMinion(e.pos) else s.world.NewResource(e.pos);
    assert id !in s.world.entities && s.OnAppEvent(e).world.entities == s.world.entities[id := ent];
  }

  /** Resizing keeps the scale, and the last resize wins. */
  lemma ResizeKeepsScale(s: AppState, w1: nat, h1: nat, w2: nat, h2: nat)
    ensures s.Resize(w1, h1).viewport.scale == s.viewport.scale
    ensures s.Resize(w1, h1).Resize(w2, h2) == s.Resize(w2, h2)
  {
  }

  /** The events `update` collects are dropped: neither the input state nor the camera
      position changes what an update does, beyond the input state itself. */
  lemma UpdateIgnoresInput(s: AppState, i: Input.InputState, r: Readings, c1: Position, c2: Position)
    ensures s.(input := i).Update(r, c1).0 == s.Update(r, c2).0
    ensures s.(input := i).Update(r, c1).1 == s.Update(r, c2).1.(input := i)
  {
  }

  /** Pressing Esc and updating leaves the driver running: the `AppQuit` that
      `update_input` collects is never dispatched. */
  lemma EscapeDoesNotQuit(s: AppState, r: Readings, camera: Position)
    requires s.isRunning && Input.Key.Esc in s.input.once
    ensures AppQuit in Input.Translate(s.input, camera)
    ensures s.Update(r, camera).1.isRunning
  {
    Input.TranslateExactly(s.input, camera, AppQuit);
  }

  /** Updates at the instants `times`, each of whose three clock reads gives the same instant. */
  function Ticks(s: AppState, times: seq<real>, camera: Position): AppState
  {
    if times == [] then s
    else
      var t := times[|times| - 1];
      Ticks(s, times[..|times| - 1], camera).Update(Readings(t, t, t), camera).1
  }

  /** Over updates at instants that never go back, every update succeeds, each is counted,
      and the accumulated frame time grows by exactly the time elapsed since the frame start. */
  lemma {:induction false} TicksAccumulate(s: AppState, times: seq<real>, camera: Position)
    requires forall i, j :: 0 <= i < j < |times| ==> times[i] <= times[j]
    requires times != [] ==> s.frameStart <= times[0]
    ensures var t := Ticks(s, times, camera);
      && t.frameCount == s.frameCount + |times|
      && t.frameStart == (if times == [] then s.frameStart else times[|times| - 1])
      && t.frameElapsed == s.frameElapsed + (t.frameStart - s.frameStart)
      && t.isRunning == s.isRunning && t.world == s.world && t.lights == s.lights
  {
    if times != [] {
      var n := |times|;
      var prefix := times[..n - 1];
      TicksAccumulate(s, prefix, camera);
      var u := Ticks(s, prefix, camera);
      assert u.frameStart <= times[n - 1] by {
        if prefix != [] {
          assert prefix[|prefix| - 1] == times[n - 2];
        }
      }
      var t := times[n - 1];
      assert Ticks(s, times, camera) == u.Update(Readings(t, t, t), camera).1;
    }
  }

  /** The driver as the program holds it: one object whose fields the operations update. */
  class App {
    var viewport: Viewport
    var input: Input.InputState
    var wallClockStart: real
    var frameCount: nat
    var frameStart: real
    var frameElapsed: real
    var isRunning: bool
    var lightPosition: Position
    var lights: Cycle<Color>
    var backgrounds: Cycle<Color>
    var world: World
    var trace: seq<Call>

    function Model(): AppState
      reads this
    {
      AppState(viewport, input, wallClockStart, frameCount, frameStart, frameElapsed, isRunning,
               lightPosition, lights, backgrounds, world, trace)
    }

    ghost predicate Valid()
      reads this
    {
      Model().Valid()
    }

    /** `App::new(w, h, scale)`, both clocks read as `now`. */
    constructor (width: nat, height: nat, scale: real, now: real)
      ensures Model() == NewApp(width, height, scale, now) && Valid()
    {
      viewport := Viewport(width, height, scale);
      input := Input.Idle();
      lightPosition := InitialLight;
      lights := Cycles.New(LightColors);
      backgrounds := Cycles.New(BackgroundColors);
      world := Worlds.Empty();
      trace := [];
      frameCount := 0;
      frameElapsed := 0.0;
      frameStart := now;
      wallClockStart := now;
      isRunning := true;
    }

    method Quit()
      modifies this
      ensures Model() == old(Model()).Quit()
    {
      isRunning := false;
    }

    method IsRunning() returns (running: bool)
      ensures running == Model().isRunning
    {
      running := isRunning;
    }

    method OnInputEvent(next: Input.InputState)
      modifies this
      ensures Model() == old(Model()).OnInputEvent(next)
    {
      input := next;
    }

    method Register(id: Id)
      requires id in world.entities
      modifies this
      ensures Model() == old(Model()).Register(id)
    {
      var found := world.FriendMut(id);
      trace := trace + [PhysicsRegister(id, found.value)];
    }

    method NewMinion(pos: Position)
      requires Valid()
      modifies this
      ensures Model() == old(Model()).CreateMinion(pos) && Valid()
    {
      var (w, id) := world.NewMinion(pos);
      world := w;
      Register(id);
    }

    method NewResource(pos: Position)
      requires Valid()
      modifies this
      ensures Model() == old(Model()).CreateResource(pos) && Valid()
    {
      var (w, id) := world.NewResource(pos);
      world := w;
      Register(id);
    }

    method OnAppEvent(e: Event)
      requires Valid()
      modifies this
      ensures Model() == old(Model()).OnAppEvent(e) && Valid()
    {
      match e {
        case CamUp => trace := trace + [CameraPush(Direction.Up)];
        case CamDown => trace := trace + [CameraPush(Direction.Down)];
        case CamLeft => trace := trace + [CameraPush(Direction.Left)];
        case CamRight => trace := trace + [CameraPush(Direction.Right)];
        case CamReset => trace := trace + [CameraReset];
        case NextLight => lights := lights.Next();
        case PrevLight => lights := lights.Prev();
        case NextBackground => backgrounds := backgrounds.Next();
        case PrevBackground => backgrounds := backgrounds.Prev();
        case Reload =>
        case AppQuit => Quit();
        case MoveLight(pos) => lightPosition := pos;
        case NewMinion(pos) => NewMinion(pos);
        case NewResource(pos) => NewResource(pos);
        case Other =>
      }
    }

    /** `update_input`: the events the keys and the mouse call for, in the order the
        tests push them; the caller drops them. */
    method UpdateInput(camera: Position) returns (events: seq<Event>)
      ensures events == Input.Translate(input, camera)
    {
      var at := Input.WorldPosition(input, camera);
      events := OnKeys(input.held, Input.HeldBindings);
      var once := OnKeys(input.once, Input.OnceBindings);
      events := events + once;
      if Input.Key.MouseRight in input.once {
        if input.ctrl {
          events := events + [Event.NewMinion(at)];
        } else {
          events := events + [Event.NewResource(at)];
        }
      }
      if Input.Key.MouseLeft in input.held {
        events := events + [MoveLight(at)];
      }
    }

    /** One expansion of `on_key_held!` or `on_key_pressed_once!`: for each entry of the
        list in turn, push its event when its key is down. */
    static method OnKeys(keys: set<Input.Key>, bindings: seq<Input.Binding>) returns (events: seq<Event>)
      ensures events == Input.Collect(keys, bindings)
    {
      events := [];
      for i := 0 to |bindings|
        invariant events == Input.Collect(keys, bindings[..i])
      {
        Input.CollectSnoc(keys, bindings[..i], bindings[i]);
        assert bindings[..i + 1] == bindings[..i] + [bindings[i]];
        if bindings[i].key in keys {
          events := events + [bindings[i].event];
        }
      }
      assert bindings[..|bindings|] == bindings;
    }

    method OnResize(width: nat, height: nat)
      modifies this
      ensures Model() == old(Model()).Resize(width, height)
    {
      viewport := Viewport(width, height, viewport.scale);
    }

    method InitSystems()
      modifies this
      ensures Model() == old(Model()).InitSystems()
    {
      trace := trace + [AnimationInit];
      trace := trace + [AiInit];
      trace := trace + [GameInit];
      trace := trace + [PhysicsInit];
    }

    method UpdateSystems()
      modifies this
      ensures Model() == old(Model()).UpdateSystems()
    {
      trace := trace + [AnimationUpdate];
      trace := trace + [GameUpdate];
      trace := trace + [AiFollowMe(lightPosition)];
      trace := trace + [AiUpdate];
      trace := trace + [PhysicsUpdate];
    }

    method Update(r: Readings, camera: Position) returns (res: Result<Report, ClockError>)
      requires Valid()
      modifies this
      ensures (res, Model()) == old(Model()).Update(r, camera) && Valid()
    {
      if r.elapsedAt < frameStart {
        return Failure(ClockError(frameStart - r.elapsedAt));
      }
      var frameTime := r.elapsedAt - frameStart;
      frameElapsed := frameElapsed + frameTime;
      frameStart := r.restartAt;
      trace := trace + [CameraUpdate];
      var events := UpdateInput(camera);
      UpdateSystems();
      frameCount := frameCount + 1;
      res := Success(Report(frameCount, WallElapsed(wallClockStart, r.wallAt), frameElapsed, frameTime));
    }

    method CurrentEnvironment() returns (env: Environment)
      requires Valid()
      ensures env == Model().CurrentEnvironment()
    {
      env := Environment(lights.Get(), lightPosition, backgrounds.Get());
    }
  }
}
