/** ResponseFormatter.java: the text sent back to a client. The platform line
    separator is a parameter. */
module ResponseFormatter {
  import opened Wrappers
  import opened JavaText
  import opened StoneColors
  import opened Players
  import opened MoveResults
  import opened GameEngine

  const AcceptedText: string := "Ruch poprawny."
  const CapturedPrefix: string := "Ruch poprawny. Zbite kamienie: "
  const ErrorPrefix: string := "BŁĄD: "
  const StatusPrefix: string := "Tura: "
  const NoPlayerName: string := "(brak)"
  const ScoresHeader: string := "KONIEC GRY - PODSUMOWANIE:"
  const BlackScorePrefix: string := "TEXT Wynik czarnego: "
  const WhiteScorePrefix: string := "TEXT Wynik białego: "
  const PointsSuffix: string := " punktów."
  const WinnerPrefix: string := "TEXT Wygrywa: "
  const DrawLine: string := "TEXT Remis!"

  predicate StartsWith(s: string, prefix: string) {
    |prefix| <= |s| && s[..|prefix|] == prefix
  }

  predicate EndsWith(s: string, suffix: string) {
    |suffix| <= |s| && s[|s| - |suffix|..] == suffix
  }

  /** `formatMoveResult`; a missing error message prints as "null", as Java's
      string concatenation does. */
  function FormatMoveResult(r: MoveResult): (s: string)
    ensures StartsWith(s, ErrorPrefix) <==> !r.ok
  {
    if r.ok then
      var s := if r.captured == [] then AcceptedText else CapturedPrefix + IntToString(|r.captured|);
      assert s[0] == 'R' != ErrorPrefix[0];
      s
    else
      ErrorPrefix + r.errorMessage.GetOr("null")
  }

  /** The reply to a move can be read back: the error message after the error
      prefix, or the number of captured stones after the capture prefix. */
  lemma MoveResultReadsBack(r: MoveResult)
    requires |r.captured| <= IntMax
    ensures var s := FormatMoveResult(r);
      && (!r.ok ==> s[|ErrorPrefix|..] == r.errorMessage.GetOr("null"))
      && (r.ok && r.captured == [] ==> s == AcceptedText)
      && (r.ok && r.captured != [] ==>
            StartsWith(s, CapturedPrefix) && ParseInt(s[|CapturedPrefix|..]) == Some(|r.captured|))
  {
    if r.ok && r.captured != [] {
      var s := FormatMoveResult(r);
      assert s[|CapturedPrefix|..] == IntToString(|r.captured|);
      ParseIntRoundTrip(|r.captured|);
    }
  }

  /** `formatStatus`: the player to move, or "(brak)", and the colour's name. */
  function FormatStatus(next: Option<GamePlayer>, color: StoneColor): (s: string)
    ensures StartsWith(s, StatusPrefix) && EndsWith(s, ")")
    ensures |s| == |StatusPrefix| + |(if next.Some? then next.value.name else NoPlayerName)| + 8
  {
    var name := if next.Some? then next.value.name else NoPlayerName;
    StatusPrefix + name + " (" + Name(color) + ")"
  }

  /** The status line gives back the name and the colour it was built from. */
  lemma StatusReadsBack(next: Option<GamePlayer>, color: StoneColor, d: StoneColor)
    ensures var s := FormatStatus(next, color);
      && s[|StatusPrefix|..|s| - 8] == (if next.Some? then next.value.name else NoPlayerName)
      && s[|s| - 6..|s| - 1] == Name(color)
      && (s[|s| - 6..|s| - 1] == Name(d) ==> d == color)
  {
    var s := FormatStatus(next, color);
    NameInjective(color, d);
  }

  /** The last line of the score summary. */
  function OutcomeLine(winner: Option<GamePlayer>): string {
    match winner
    case Some(p) => WinnerPrefix + p.name + " (" + Name(p.color) + ")"
    case None => DrawLine
  }

  /** `formatScores`, with `ls` for `System.lineSeparator()`. */
  function FormatScores(scores: ScoreResult, ls: string): (s: string)
    ensures StartsWith(s, ScoresHeader + ls + BlackScorePrefix)
    ensures EndsWith(s, OutcomeLine(scores.winner))
  {
    var head := ScoresHeader + ls + BlackScorePrefix;
    var body := IntToString(scores.blackScore)
      + (PointsSuffix + ls + WhiteScorePrefix + IntToString(scores.whiteScore) + PointsSuffix + ls);
    Affixes(head, body, OutcomeLine(scores.winner));
    head + body + OutcomeLine(scores.winner)
  }

  lemma Affixes(x: string, y: string, z: string)
    ensures StartsWith(x + y + z, x) && EndsWith(x + y + z, z)
  {
    assert (x + y + z)[..|x|] == x;
    assert (x + y + z)[|x + y + z| - |z|..] == z;
  }

  /** The summary ends with the draw line exactly when there is no winner,
      Black's score reads back from the second line and White's from the third. */
  lemma ScoresReadBack(scores: ScoreResult, ls: string)
    requires IsInt32(scores.blackScore) && IsInt32(scores.whiteScore)
    ensures var s := FormatScores(scores, ls);
      var blackAt := |ScoresHeader + ls + BlackScorePrefix|;
      var whiteAt := blackAt + |IntToString(scores.blackScore)| + |PointsSuffix + ls + WhiteScorePrefix|;
      && (EndsWith(s, DrawLine) <==> scores.winner == None)
      && ParseInt(s[blackAt..][..|IntToString(scores.blackScore)|]) == Some(scores.blackScore)
      && ParseInt(s[whiteAt..][..|IntToString(scores.whiteScore)|]) == Some(scores.whiteScore)
  {
    var s := FormatScores(scores, ls);
    if scores.winner.Some? {
      assert s[|s| - 1] == ')';
      assert DrawLine[|DrawLine| - 1] == '!';
    }
    var head := ScoresHeader + ls + BlackScorePrefix;
    var black, white := IntToString(scores.blackScore), IntToString(scores.whiteScore);
    ReadAt(head, black, PointsSuffix + ls + WhiteScorePrefix + white + PointsSuffix + ls,
      OutcomeLine(scores.winner));
    ParseIntRoundTrip(scores.blackScore);
    WhiteReadBack(scores, ls);
  }

  lemma WhiteReadBack(scores: ScoreResult, ls: string)
    requires IsInt32(scores.whiteScore)
    ensures var whiteAt := |ScoresHeader + ls + BlackScorePrefix| + |IntToString(scores.blackScore)|
                           + |PointsSuffix + ls + WhiteScorePrefix|;
      ParseInt(FormatScores(scores, ls)[whiteAt..][..|IntToString(scores.whiteScore)|]) == Some(scores.whiteScore)
  {
    ReadSecond(ScoresHeader + ls + BlackScorePrefix, IntToString(scores.blackScore),
      PointsSuffix + ls + WhiteScorePrefix, IntToString(scores.whiteScore), PointsSuffix, ls,
      OutcomeLine(scores.winner));
    ParseIntRoundTrip(scores.whiteScore);
  }

  /** The piece `n` is found after `x`, `k` and `m` in the layout of the summary. */
  lemma ReadSecond(x: string, k: string, m: string, n: string, p: string, l: string, z: string)
    ensures (x + (k + (m + n + p + l)) + z)[|x| + |k| + |m|..][..|n|] == n
  {
    assert x + (k + (m + n + p + l)) + z == (x + k + m) + (n + (p + l + z));
  }

  /** The piece `n` is found right after `x` in `x + (n + m) + z`. */
  lemma ReadAt(x: string, n: string, m: string, z: string)
    ensures (x + (n + m) + z)[|x|..][..|n|] == n
  {
    assert (x + (n + m) + z)[|x|..] == n + m + z;
    assert (n + m + z)[..|n|] == n;
  }
}
