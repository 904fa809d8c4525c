/**
 * Key state to domain events (`update_input`, mod.rs:207-254).  The input
 * state is seen only through what that function asks of it: which keys are
 * held, which were pressed once since the last read, whether a ctrl key is
 * down, and the mouse position.
 */
module Input {
  import opened Events

  datatype Key = Up | Down | Left | Right | F5 | L | B | K | V | Esc | MouseLeft | MouseRight

  datatype InputState = InputState(held: set<Key>, once: set<Key>, ctrl: bool, mouse: Position)

  /** `InputState::default()`, whose source is not part of this model: assumed to hold
      no key down and the mouse at the origin. */
  function Idle(): InputState
  {
    InputState({}, {}, false, Position(0.0, 0.0))
  }

  /** The cursor in world space: the raw mouse position plus the camera offset (mod.rs:240, 261-263). */
  function WorldPosition(input: InputState, camera: Position): (p: Position)
    ensures p == Position(input.mouse.x + camera.x, input.mouse.y + camera.y)
  {
    input.mouse.Plus(camera)
  }

  /** The key condition under which `update_input` produces an event, with the position
      it carries. */
  predicate Triggered(e: Event, input: InputState, at: Position)
  {
    match e
    case CamUp => Key.Up in input.held
    case CamDown => Key.Down in input.held
    case CamLeft => Key.Left in input.held
    case CamRight => Key.Right in input.held
    case Reload => Key.F5 in input.once
    case NextLight => Key.L in input.once
    case NextBackground => Key.B in input.once
    case PrevLight => Key.K in input.once
    case PrevBackground => Key.V in input.once
    case AppQuit => Key.Esc in input.once
    case NewMinion(p) => Key.MouseRight in input.once && input.ctrl && p == at
    case NewResource(p) => Key.MouseRight in input.once && !input.ctrl && p == at
    case MoveLight(p) => Key.MouseLeft in input.held && p == at
    case CamReset => false
    case Other => false
  }

  /** The position of an event's test in `update_input`. */
  function Rank(e: Event): nat
  {
    match e
    case CamUp => 0
    case CamDown => 1
    case CamLeft => 2
    case CamRight => 3
    case Reload => 4
    case NextLight => 5
    case NextBackground => 6
    case PrevLight => 7
    case PrevBackground => 8
    case AppQuit => 9
    case NewMinion(_) => 10
    case NewResource(_) => 10
    case MoveLight(_) => 11
    case CamReset => 12
    case Other => 12
  }

  /** Strictly increasing ranks: the order of the tests, and no event twice. */
  predicate Ranked(events: seq<Event>)
  {
    forall i, j :: 0 <= i < j < |events| ==> Rank(events[i]) < Rank(events[j])
  }

  lemma RankedConcat(a: seq<Event>, b: seq<Event>)
    requires Ranked(a) && Ranked(b)
    requires forall x, y :: x in a && y in b ==> Rank(x) < Rank(y)
    ensures Ranked(a + b)
  {
    var ab := a + b;
    forall i, j | 0 <= i < j < |ab| ensures Rank(ab[i]) < Rank(ab[j]) {
      if j < |a| {
        assert ab[i] == a[i] && ab[j] == a[j];
      } else if i >= |a| {
        assert ab[i] == b[i - |a|] && ab[j] == b[j - |a|];
      } else {
        assert ab[i] == a[i] && ab[j] == b[j - |a|];
        assert ab[i] in a && ab[j] in b;
      }
    }
  }

  /** One `key -> event` entry of the `on_key_held!` / `on_key_pressed_once!` lists. */
  datatype Binding = Binding(key: Key, event: Event)

  /** The `on_key_held!` list, mod.rs:222-227. */
  const HeldBindings: seq<Binding> :=
    [Binding(Key.Up, CamUp), Binding(Key.Down, CamDown),
     Binding(Key.Left, CamLeft), Binding(Key.Right, CamRight)]

  /** The `on_key_pressed_once!` list, mod.rs:229-236. */
  const OnceBindings: seq<Binding> :=
    [Binding(Key.F5, Reload), Binding(Key.L, NextLight), Binding(Key.B, NextBackground),
     Binding(Key.K, PrevLight), Binding(Key.V, PrevBackground), Binding(Key.Esc, AppQuit)]

  predicate RankedBindings(bs: seq<Binding>)
  {
    forall i, j :: 0 <= i < j < |bs| ==> Rank(bs[i].event) < Rank(bs[j].event)
  }

  /** What one macro expands to: for each entry in turn, push its event if its key is in `keys`. */
  function Collect(keys: set<Key>, bs: seq<Binding>): (events: seq<Event>)
    ensures |events| <= |bs|
  {
    if bs == [] then []
    else (if bs[0].key in keys then [bs[0].event] else []) + Collect(keys, bs[1..])
  }

  /** The macro's tests run in list order: one more entry pushes at the end. */
  lemma {:induction false} CollectSnoc(keys: set<Key>, bs: seq<Binding>, b: Binding)
    ensures Collect(keys, bs + [b]) == Collect(keys, bs) + (if b.key in keys then [b.event] else [])
  {
    if bs != [] {
      assert (bs + [b])[1..] == bs[1..] + [b];
      CollectSnoc(keys, bs[1..], b);
    } else {
      assert Collect(keys, [b][1..]) == [];
    }
  }

  /** A macro pushes the event of entry i exactly when the key of entry i is down, in
      the order of the list, and nothing outside the list's rank range. */
  lemma {:induction false} CollectSpec(keys: set<Key>, bs: seq<Binding>)
    requires RankedBindings(bs)
    ensures Ranked(Collect(keys, bs))
    ensures forall i :: 0 <= i < |bs| ==> (bs[i].event in Collect(keys, bs) <==> bs[i].key in keys)
    ensures forall e :: e in Collect(keys, bs) ==>
      bs != [] && Rank(bs[0].event) <= Rank(e) <= Rank(bs[|bs| - 1].event)
  {
    if bs != [] {
      var rest := bs[1..];
      var head := if bs[0].key in keys then [bs[0].event] else [];
      var tail := Collect(keys, rest);
      assert Collect(keys, bs) == head + tail;
      assert RankedBindings(rest) by {
        forall i, j | 0 <= i < j < |rest| ensures Rank(rest[i].event) < Rank(rest[j].event) {
          assert rest[i] == bs[i + 1] && rest[j] == bs[j + 1];
        }
      }
      CollectSpec(keys, rest);
      assert forall e :: e in tail ==> Rank(bs[0].event) < Rank(e) by {
        forall e | e in tail ensures Rank(bs[0].event) < Rank(e) {
          assert rest[0] == bs[1];
        }
      }
      RankedConcat(head, tail);
      CollectMembers(keys, bs);
      if |bs| > 1 {
        assert rest[|rest| - 1] == bs[|bs| - 1];
      }
    }
  }

  /** CollectSpec's membership claim: entry i's event is pushed exactly when its key is down. */
  lemma {:induction false} CollectMembers(keys: set<Key>, bs: seq<Binding>)
    requires RankedBindings(bs)
    ensures forall i :: 0 <= i < |bs| ==> (bs[i].event in Collect(keys, bs) <==> bs[i].key in keys)
  {
    if bs != [] {
      var rest := bs[1..];
      assert RankedBindings(rest) by {
        forall i, j | 0 <= i < j < |rest| ensures Rank(rest[i].event) < Rank(rest[j].event) {
          assert rest[i] == bs[i + 1] && rest[j] == bs[j + 1];
        }
      }
      CollectMembers(keys, rest);
      forall i | 0 <= i < |bs|
        ensures bs[i].event in Collect(keys, bs) <==> bs[i].key in keys
      {
        CollectAt(keys, bs, i);
      }
    }
  }

  /** One step of CollectMembers, for entry i, given the claim for the tail. */
  lemma CollectAt(keys: set<Key>, bs: seq<Binding>, i: nat)
    requires i < |bs|
    requires forall j :: 0 < j < |bs| ==> Rank(bs[0].event) < Rank(bs[j].event)
    requires forall j :: 0 <= j < |bs| - 1 ==>
      (bs[1..][j].event in Collect(keys, bs[1..]) <==> bs[1..][j].key in keys)
    ensures bs[i].event in Collect(keys, bs) <==> bs[i].key in keys
  {
    assert Collect(keys, bs) == (if bs[0].key in keys then [bs[0].event] else []) + Collect(keys, bs[1..]);
    if i > 0 {
      assert bs[i] == bs[1..][i - 1];
      assert bs[i].event != bs[0].event by { assert Rank(bs[0].event) < Rank(bs[i].event); }
    } else if bs[0].event in Collect(keys, bs[1..]) {
      CollectRanks(keys, bs[1..], bs[0].event);
    }
  }

  /** Every event a macro pushes is the event of one of its entries. */
  lemma {:induction false} CollectRanks(keys: set<Key>, bs: seq<Binding>, e: Event)
    requires e in Collect(keys, bs)
    ensures exists j :: 0 <= j < |bs| && bs[j].event == e
  {
    if bs[0].key in keys && e == bs[0].event {
    } else {
      CollectRanks(keys, bs[1..], e);
      var j :| 0 <= j < |bs[1..]| && bs[1..][j].event == e;
      assert bs[j + 1].event == e;
    }
  }

  lemma BindingsRanked()
    ensures RankedBindings(HeldBindings) && RankedBindings(OnceBindings)
  {
  }

  /** The mouse: right click spawns (a minion with ctrl, a resource without),
      left button held moves the light. */
  function MouseEvents(input: InputState, at: Position): (r: seq<Event>)
    ensures Ranked(r) && forall e :: e in r ==> 10 <= Rank(e) < 12
  {
    var spawn :=
      if Key.MouseRight in input.once then
        if input.ctrl then [NewMinion(at)] else [NewResource(at)]
      else [];
    var move := if Key.MouseLeft in input.held then [MoveLight(at)] else [];
    spawn + move
  }

  /** The events `update_input` collects, in the order it pushes them (the list is
      dropped at mod.rs:254 without being dispatched). */
  function Translate(input: InputState, camera: Position): (events: seq<Event>)
    ensures Ranked(events)
  {
    var at := WorldPosition(input, camera);
    var held, once := Collect(input.held, HeldBindings), Collect(input.once, OnceBindings);
    var mouse := MouseEvents(input, at);
    BindingsRanked();
    CollectSpec(input.held, HeldBindings);
    CollectSpec(input.once, OnceBindings);
    RankedConcat(held, once);
    RankedConcat(held + once, mouse);
    held + once + mouse
  }

  /** `update_input` produces exactly the triggered events (each at most once, by `Ranked`). */
  lemma TranslateExactly(input: InputState, camera: Position, e: Event)
    ensures e in Translate(input, camera) <==> Triggered(e, input, WorldPosition(input, camera))
  {
    var at := WorldPosition(input, camera);
    var held, once := Collect(input.held, HeldBindings), Collect(input.once, OnceBindings);
    var mouse := MouseEvents(input, at);
    assert Translate(input, camera) == held + once + mouse;
    HeldTriggered(input, at, e);
    OnceTriggered(input, at, e);
    MouseTriggered(input, at, e);
  }

  /** The held-key list pushes exactly the triggered camera moves. */
  lemma HeldTriggered(input: InputState, at: Position, e: Event)
    ensures e in Collect(input.held, HeldBindings) <==> Rank(e) < 4 && Triggered(e, input, at)
  {
    BindingsRanked();
    CollectSpec(input.held, HeldBindings);
    if Rank(e) < 4 {
      match e {
        case CamUp => assert e == HeldBindings[0].event;
        case CamDown => assert e == HeldBindings[1].event;
        case CamLeft => assert e == HeldBindings[2].event;
        case CamRight => assert e == HeldBindings[3].event;
      }
    }
  }

  /** The pressed-once list pushes exactly the triggered reload, selector and quit events. */
  lemma OnceTriggered(input: InputState, at: Position, e: Event)
    ensures e in Collect(input.once, OnceBindings) <==> 4 <= Rank(e) < 10 && Triggered(e, input, at)
  {
    BindingsRanked();
    CollectSpec(input.once, OnceBindings);
    if 4 <= Rank(e) < 10 {
      match e {
        case Reload => assert e == OnceBindings[0].event;
        case NextLight => assert e == OnceBindings[1].event;
        case NextBackground => assert e == OnceBindings[2].event;
        case PrevLight => assert e == OnceBindings[3].event;
        case PrevBackground => assert e == OnceBindings[4].event;
        case AppQuit => assert e == OnceBindings[5].event;
      }
    }
  }

  /** The mouse tests push exactly the triggered spawn and light moves. */
  lemma MouseTriggered(input: InputState, at: Position, e: Event)
    ensures e in MouseEvents(input, at) <==> 10 <= Rank(e) && Triggered(e, input, at)
  {
  }

  /** The contract of `Translate` leaves no freedom: a ranked list holding exactly the
      triggered events is the one `Translate` returns. */
  lemma TranslateDetermined(input: InputState, camera: Position, events: seq<Event>)
    requires Ranked(events)
    requires forall e :: e in events <==> Triggered(e, input, WorldPosition(input, camera))
    ensures events == Translate(input, camera)
  {
    forall e ensures e in events <==> e in Translate(input, camera) {
      TranslateExactly(input, camera, e);
    }
    RankedUnique(events, Translate(input, camera));
  }

  lemma HeadIn(a: seq<Event>)
    requires a != []
    ensures a[0] in a
  {
  }

  lemma {:induction false} RankedUnique(a: seq<Event>, b: seq<Event>)
    requires Ranked(a) && Ranked(b)
    requires forall e :: e in a <==> e in b
    ensures a == b
    decreases |a| + |b|
  {
    if a == [] {
      if b != [] {
        HeadIn(b);
        assert false;
      }
    } else if b == [] {
      HeadIn(a);
      assert false;
    } else {
      var x, y := a[0], b[0];
      assert x == y by {
        HeadIn(a);
        HeadIn(b);
        var i :| 0 <= i < |a| && a[i] == y;
        var j :| 0 <= j < |b| && b[j] == x;
        assert i > 0 ==> Rank(x) < Rank(y);
        assert j > 0 ==> Rank(y) < Rank(x);
        if i != 0 && j != 0 {
          assert false;
        }
      }
      forall e ensures e in a[1..] <==> e in b[1..] {
        RankedTail(a, e);
        RankedTail(b, e);
      }
      RankedUnique(a[1..], b[1..]);
    }
  }

  lemma RankedTail(a: seq<Event>, e: Event)
    requires Ranked(a) && a != []
    ensures e in a[1..] <==> e in a && e != a[0]
  {
    if e in a[1..] {
      var i :| 0 <= i < |a[1..]| && a[1..][i] == e;
      assert a[i + 1] == e && Rank(a[0]) < Rank(a[i + 1]);
    }
    if e in a && e != a[0] {
      var i :| 0 <= i < |a| && a[i] == e;
      assert a[1..][i - 1] == e;
    }
  }
}
