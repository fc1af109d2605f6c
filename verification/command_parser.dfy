/** CommandParser.java: a text command becomes a move, a resignation, or an
    error. Exceptions become `Failure` with the exception's message; the `null`
    the source returns for "resign" becomes `Success(None)`. */
module CommandParser {
  import opened Wrappers
  import opened JavaText
  import opened Positions
  import opened Players
  import opened Moves

  const EmptyCommandError: string := "Pusta komenda"
  const TwoCoordinatesError: string := "Wymagane dwie współrzędne (x y)"
  const NotNumbersError: string := "Współrzędne muszą być liczbami"

  /** `parseMove`: "resign" in any case ends the game, a blank command, fewer
      than two tokens and non-numeric coordinates are errors, and "col row ..."
      is a move of `player`; tokens after the second are ignored. */
  function ParseMove(command: string, player: GamePlayer): (r: Result<Option<Move>>)
    ensures r == Success(None) <==> ToLower(Trim(command)) == "resign"
    ensures r == Failure(EmptyCommandError) <==> IsBlank(ToLower(Trim(command)))
    ensures r.Failure? ==> r.error == EmptyCommandError || r.error == TwoCoordinatesError || r.error == NotNumbersError
    ensures r.Success? && r.value.Some? ==>
      && r.value.value.player == player
      && IsInt32(r.value.value.position.col) && IsInt32(r.value.value.position.row)
  {
    var c := ToLower(Trim(command));
    if c == "resign" then Success(None)
    else if IsBlank(c) then Failure(EmptyCommandError)
    else
      var parts := Split(Trim(c));
      if |parts| < 2 then Failure(TwoCoordinatesError)
      else
        match (ParseInt(parts[0]), ParseInt(parts[1]))
        case (Some(col), Some(row)) => Success(Some(Move(Position(col, row), player)))
        case _ => Failure(NotNumbersError)
  }

  /** "resign" in any letter case, with any padding, is a resignation. */
  lemma ResignAnyCase(pre: string, word: string, post: string, player: GamePlayer)
    requires AllTrimmable(pre) && AllTrimmable(post)
    requires ToLower(word) == "resign"
    ensures ParseMove(pre + word + post, player) == Success(None)
  {
    assert LowerChar(word[0]) == 'r' && LowerChar(word[|word| - 1]) == 'n';
    TrimPadded(pre, word, post);
  }

  /** A command of two or more words, with any padding: the first two words
      give a move when both are numbers and the not-numbers error otherwise;
      further words are ignored. Every command with two or more words, after
      trimming, has this shape. */
  lemma ParseMoveWords(pre: string, a: string, sep: string, b: string, rest: string, post: string,
                       player: GamePlayer)
    requires AllTrimmable(pre) && AllTrimmable(post)
    requires a != [] && b != [] && NoSpace(a) && NoSpace(b)
    requires sep != [] && AllSpace(sep)
    requires rest == [] || IsRegexSpace(rest[0])
    requires IsTrimmed(a + sep + b + rest) && !IsBlank(a + sep + b + rest)
    ensures var r := ParseMove(pre + a + sep + b + rest + post, player);
      && (ParseInt(a).Some? && ParseInt(b).Some? ==>
            r == Success(Some(Move(Position(ParseInt(a).value, ParseInt(b).value), player))))
      && (ParseInt(a).None? || ParseInt(b).None? ==> r == Failure(NotNumbersError))
  {
    var core := a + sep + b + rest;
    assert pre + a + sep + b + rest + post == pre + core + post;
    var c := LoweredWords(pre, a, sep, b, rest, post);
    LowerKeepsBlank(a);
    LowerKeepsBlank(b);
    assert rest != [] ==> ToLower(rest)[0] == rest[0];
    SplitTwoWords(ToLower(a), sep, ToLower(b), ToLower(rest));
    LowerKeepsParse(a);
    LowerKeepsParse(b);
    TwoTokens(pre + core + post, player, ParseInt(a), ParseInt(b));
  }

  /** Trimming and lower-casing a padded command of two or more words leaves the
      lowered words and the runs between them. */
  lemma LoweredWords(pre: string, a: string, sep: string, b: string, rest: string, post: string)
    returns (c: string)
    requires AllTrimmable(pre) && AllTrimmable(post)
    requires sep != [] && AllSpace(sep)
    requires IsTrimmed(a + sep + b + rest) && !IsBlank(a + sep + b + rest)
    ensures c == ToLower(Trim(pre + (a + sep + b + rest) + post))
    ensures c == ToLower(a) + sep + ToLower(b) + ToLower(rest)
    ensures c != "resign" && !IsBlank(c) && Trim(c) == c
  {
    var core := a + sep + b + rest;
    TrimPadded(pre, core, post);
    c := ToLower(core);
    LowerKeepsTrimmed(core);
    TrimKeeps(c);
    LowerKeepsBlank(core);
    ToLowerConcat(a + sep + b, rest);
    ToLowerConcat(a + sep, b);
    ToLowerConcat(a, sep);
    assert ToLower(sep) == sep;
    assert core[|a|] == sep[0];
    SpacedIsNotResign(c, |a|);
  }

  lemma SpacedIsNotResign(c: string, i: nat)
    requires i < |c| && IsRegexSpace(c[i])
    ensures c != "resign"
  {
  }

  /** The outcome of a trimmed, lower-cased command that is neither "resign" nor
      blank, from the parses of its first two tokens. */
  lemma TwoTokens(command: string, player: GamePlayer, x: Option<int>, y: Option<int>)
    requires var c := ToLower(Trim(command));
      && c != "resign" && !IsBlank(c) && Trim(c) == c
      && |Split(c)| >= 2 && ParseInt(Split(c)[0]) == x && ParseInt(Split(c)[1]) == y
    ensures x.Some? && y.Some? ==>
      ParseMove(command, player) == Success(Some(Move(Position(x.value, y.value), player)))
    ensures x.None? || y.None? ==> ParseMove(command, player) == Failure(NotNumbersError)
  {
  }

  /** A command of one word, with any padding, that is neither blank nor
      "resign" lacks the second coordinate. */
  lemma ParseMoveOneWord(pre: string, w: string, post: string, player: GamePlayer)
    requires AllTrimmable(pre) && AllTrimmable(post)
    requires IsTrimmed(w) && NoSpace(w) && !IsBlank(w) && ToLower(w) != "resign"
    ensures ParseMove(pre + w + post, player) == Failure(TwoCoordinatesError)
  {
    TrimPadded(pre, w, post);
    var c := ToLower(w);
    LowerKeepsTrimmed(w);
    TrimKeeps(c);
    LowerKeepsBlank(w);
    FirstSpaceNone(c);
  }

  /** Rendering two coordinates, separated by a space and optionally followed by
      more words, parses back to the move. */
  lemma ParseMoveRoundTrip(col: int, row: int, tail: string, player: GamePlayer)
    requires IsInt32(col) && IsInt32(row)
    requires tail == [] || (IsRegexSpace(tail[0]) && !Trimmable(tail[|tail| - 1]))
    ensures ParseMove(IntToString(col) + " " + IntToString(row) + tail, player)
              == Success(Some(Move(Position(col, row), player)))
  {
    CoordinateText(IntToString(col), IntToString(row), tail);
    ParseMoveWords([], IntToString(col), " ", IntToString(row), tail, [], player);
    ParseIntRoundTrip(col);
    ParseIntRoundTrip(row);
  }

  /** Two rendered numbers and a tail that ends in a kept character make a
      trimmed command that is not blank. */
  lemma CoordinateText(a: string, b: string, tail: string)
    requires a != [] && b != [] && IsTrimmed(a) && IsTrimmed(b) && !IsJavaWhitespace(a[0])
    requires tail == [] || !Trimmable(tail[|tail| - 1])
    ensures IsTrimmed(a + " " + b + tail) && !IsBlank(a + " " + b + tail)
    ensures [] + a + " " + b + tail + [] == a + " " + b + tail
  {
    var command := a + " " + b + tail;
    assert command[0] == a[0];
    assert command[|command| - 1] == if tail == [] then b[|b| - 1] else tail[|tail| - 1];
  }

  /** A single number is not a move. */
  lemma OneNumberIsNotAMove(i: int, player: GamePlayer)
    requires IsInt32(i)
    ensures ParseMove(IntToString(i), player) == Failure(TwoCoordinatesError)
  {
    var s := IntToString(i);
    LowerKeepsNumber(i);
    assert s != "resign" by {
      assert s[0] != 'r';
    }
    assert [] + s + [] == s;
    ParseMoveOneWord([], s, [], player);
  }
}
