/** Positions and the domain events of the `ev` module that `on_app_event` dispatches. */
module Events {

  /** A point in world coordinates (`core::geometry::Position`, two `f32`s, here reals). */
  datatype Position = Position(x: real, y: real)
  {
    function Plus(o: Position): Position { Position(x + o.x, y + o.y) }
  }

  datatype Event =
    | CamUp | CamDown | CamLeft | CamRight | CamReset
    | NextLight | PrevLight | NextBackground | PrevBackground
    | Reload | AppQuit
    | MoveLight(pos: Position)
    | NewMinion(pos: Position)
    | NewResource(pos: Position)
    | Other   // the variants of `ev::Event` that `on_app_event` leaves to its `_` arm
}
