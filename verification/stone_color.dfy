/** The three states of a board cell (StoneColor.java). */
module StoneColors {

  datatype StoneColor = Empty | Black | White

  /** The opposing colour: Black and White swap, Empty stays Empty. */
  function Other(c: StoneColor): (r: StoneColor)
    ensures r == Empty <==> c == Empty
    ensures c != Empty ==> r != c
  {
    match c
    case Black => White
    case White => Black
    case Empty => Empty
  }

  lemma OtherIsInvolution(c: StoneColor)
    ensures Other(Other(c)) == c
  {
  }

  /** The text Java prints for an enum constant: its declared name. */
  function Name(c: StoneColor): (r: string)
    ensures |r| == 5
  {
    match c
    case Empty => "EMPTY"
    case Black => "BLACK"
    case White => "WHITE"
  }

  lemma NameInjective(c: StoneColor, d: StoneColor)
    ensures Name(c) == Name(d) ==> c == d
  {
    if Name(c) == Name(d) {
      assert Name(c)[0] == Name(d)[0];
    }
  }
}
