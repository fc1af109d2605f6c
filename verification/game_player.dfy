/** One side of the game (GamePlayer.java). The source compares players by
    object identity; `id` stands for that identity, so two players are the
    same exactly when all their fields, including `id`, agree. */
module Players {
  import opened Wrappers
  import opened StoneColors
  import opened JavaText

  datatype GamePlayer = GamePlayer(id: nat, name: string, color: StoneColor)

  const DefaultName: string := "Player"

  /** The constructor: a null or blank name becomes "Player", a null colour EMPTY. */
  function NewPlayer(id: nat, name: Option<string>, color: Option<StoneColor>): (p: GamePlayer)
    ensures p.id == id
    ensures !IsBlank(p.name)
    ensures name.Some? && !IsBlank(name.value) ==> p.name == name.value
    ensures name.None? || IsBlank(name.value) ==> p.name == DefaultName
    ensures color.Some? ==> p.color == color.value
    ensures color.None? ==> p.color == Empty
  {
    var n := if name.None? || IsBlank(name.value) then DefaultName else name.value;
    assert !IsJavaWhitespace(DefaultName[0]);
    GamePlayer(id, n, color.GetOr(Empty))
  }

  /** `toString`: the name followed by the colour in parentheses. */
  function ToString(p: GamePlayer): (s: string)
    ensures |s| == |p.name| + 7
    ensures s[..|p.name|] == p.name
    ensures s[|p.name|] == '(' && s[|s| - 1] == ')'
    ensures s[|p.name| + 1..|s| - 1] == Name(p.color)
  {
    p.name + "(" + Name(p.color) + ")"
  }
}
