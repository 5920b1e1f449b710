/** src/game/state_manager.py: the Python game's shared state. The two
    entity lists are list objects that clear_state empties in place, so
    every holder of a reference sees them emptied; the grid is replaced by
    a new one. */
module StateManager {
  import opened Core
  import opened Entities

  /** A Python list that is mutated in place. */
  class EntityList<T> {
    var items: seq<T>

    constructor ()
      ensures items == []
    {
      items := [];
    }

  }

  class GameStateManager {
    const pieceEntities: EntityList<ChessPiece>
    const cardEntities: EntityList<object>
    var virtualGrid: Grid
    var selectedPiece: ChessPiece?
    var selectedCard: object?

    /** Both lists empty, an 8 x 8 grid of None, nothing selected. */
    ghost predicate Initial()
      reads this, pieceEntities, cardEntities
    {
      pieceEntities.items == [] && cardEntities.items == [] &&
      virtualGrid == Filled(null) && selectedPiece == null && selectedCard == null
    }

    constructor ()
      ensures Initial()
      ensures fresh(pieceEntities) && fresh(cardEntities)
    {
      pieceEntities := new EntityList<ChessPiece>();
      cardEntities := new EntityList<object>();
      virtualGrid := Filled(null);
      selectedPiece := null;
      selectedCard := null;
    }

    /** clear_state restores the initial state from any state, keeping the
        same two list objects; from the initial state it changes nothing. */
    method ClearState()
      modifies this, pieceEntities, cardEntities
      ensures Initial()
      ensures old(Initial()) ==> unchanged(this, pieceEntities, cardEntities)
    {
      pieceEntities.items := [];
      cardEntities.items := [];
      virtualGrid := Filled(null);
      selectedPiece := null;
      selectedCard := null;
    }
  }
}
