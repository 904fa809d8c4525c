/**
 * The part of `World` that the frame driver relies on (its source is not part
 * of this model): entities stored under identities that are fresh when handed
 * out, and lookup of an identity (`friend_mut`).
 */
module Worlds {
  import opened Wrappers
  import opened Events

  type Id = nat

  datatype Entity = Minion(pos: Position) | Resource(pos: Position)

  datatype World = World(entities: map<Id, Entity>, nextId: Id)
  {
    /** Every stored identity lies below the next one to be handed out. */
    predicate Valid() { forall id :: id in entities ==> id < nextId }

    /** `new_minion`: stores a minion at `pos` under an identity not used before. */
    function NewMinion(pos: Position): (r: (World, Id))
      requires Valid()
      ensures r.0.Valid() && r.1 !in entities
      ensures r.0.entities == entities[r.1 := Minion(pos)]
    {
      (World(entities[nextId := Minion(pos)], nextId + 1), nextId)
    }

    /** `new_resource`: stores a resource at `pos` under an identity not used before. */
    function NewResource(pos: Position): (r: (World, Id))
      requires Valid()
      ensures r.0.Valid() && r.1 !in entities
      ensures r.0.entities == entities[r.1 := Resource(pos)]
    {
      (World(entities[nextId := Resource(pos)], nextId + 1), nextId)
    }

    /** `friend_mut`: the entity stored under `id`, if any. */
    function FriendMut(id: Id): (r: Option<Entity>)
      ensures r.Some? <==> id in entities
      ensures r.Some? ==> r.value == entities[id]
    {
      if id in entities then Some(entities[id]) else None
    }
  }

  function Empty(): (w: World)
    ensures w.Valid() && w.entities == map[]
  {
    World(map[], 0)
  }
}
