/** The optional value used where the JavaScript source uses `null`. */
module Options {
  datatype Option<T> = None | Some(value: T)
}

/**
 * The two contestants. In the source a player is an object wrapping an id,
 * and players are only ever compared by identity, so two distinct
 * constructors are all the model needs.
 */
module Players {
  datatype Player = Player1 | Player2

  /** The game's `players` array, in registration order. */
  const All: seq<Player> := [Player1, Player2]

  function Other(p: Player): (q: Player)
    ensures q != p && q in All
  {
    if p == Player1 then Player2 else Player1
  }
}
