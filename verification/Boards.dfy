/** `model/board.py`: the board as the object the arbiter and the engine share. */
module Boards {
  import opened Pieces

  class Board {
    const width: nat
    const height: nat
    var cells: Cells

    constructor (width: nat, height: nat, cells: Cells)
      ensures this.width == width && this.height == height && this.cells == cells
    {
      this.width := width;
      this.height := height;
      this.cells := cells;
    }

    method AddPiece(piece: Piece)
      modifies this
      ensures cells == old(cells)[piece.cell := piece]
    {
      cells := cells[piece.cell := piece];
    }

    /** Removes the piece with this id, wherever it stands. */
    method RemovePiece(id: Id)
      modifies this
      ensures (forall c :: c in old(cells) ==> old(cells)[c].id != id) ==> cells == old(cells)
      ensures (exists c :: c in old(cells) && old(cells)[c].id == id) ==>
        exists c :: c in old(cells) && old(cells)[c].id == id && cells == old(cells) - {c}
    {
      if c :| c in cells && cells[c].id == id {
        cells := cells - {c};
      }
    }
  }
}
