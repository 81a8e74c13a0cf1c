/** The two marks that take turns on the grid. */
module Players {

  /** X is the default mark and moves first. */
  datatype Player = X | O

  /** The mark whose turn follows p's. */
  function Other(p: Player): (q: Player)
    ensures q != p
  {
    match p
    case X => O
    case O => X
  }

  /** The one-character text of a mark. */
  function Glyph(p: Player): (c: char)
    ensures c == 'X' || c == 'O'
  {
    match p
    case X => 'X'
    case O => 'O'
  }

  /** Different marks print differently. */
  lemma GlyphInjective(p: Player, q: Player)
    ensures Glyph(p) == Glyph(q) ==> p == q
  {
  }
}
