/** A stone placement request (Move.java). The source rejects a null position in
    the constructor; the model's position is never null. */
module Moves {
  import opened Positions
  import opened Players

  datatype Move = Move(position: Position, player: GamePlayer)
}
