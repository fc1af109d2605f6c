/** MoveResult.java: the outcome of one engine call. The source keeps independent
    flags; every factory fills them in one of six fixed shapes, and `Classify`
    reads the shape back, so each result has exactly one meaning. */
module MoveResults {
  import opened Wrappers
  import opened Positions
  import opened Players

  datatype MoveResult = MoveResult(
    ok: bool,
    errorMessage: Option<string>,
    captured: seq<Position>,
    passed: bool,
    end: bool,
    resigned: bool,
    negotiation: bool,
    winner: Option<GamePlayer>,
    loser: Option<GamePlayer>)

  /** The constructor: a null capture list becomes an empty list. */
  function NewMoveResult(ok: bool, errorMessage: Option<string>, captured: Option<seq<Position>>,
                         passed: bool, end: bool, resigned: bool, negotiation: bool,
                         winner: Option<GamePlayer>, loser: Option<GamePlayer>): (r: MoveResult)
    ensures r.captured == captured.GetOr([])
    ensures r.ok == ok && r.errorMessage == errorMessage
    ensures r.passed == passed && r.end == end && r.resigned == resigned && r.negotiation == negotiation
    ensures r.winner == winner && r.loser == loser
  {
    MoveResult(ok, errorMessage, captured.GetOr([]), passed, end, resigned, negotiation, winner, loser)
  }

  /** The meanings a result can carry. */
  datatype Outcome =
    | Accepted(stones: seq<Position>)
    | PassAcknowledged
    | PassEnded
    | NegotiationStarted
    | Resigned(quitter: GamePlayer, victor: GamePlayer)
    | Rejected(message: string)

  predicate NoFlags(r: MoveResult) {
    !r.passed && !r.end && !r.resigned && !r.negotiation
  }

  function Ok(captured: seq<Position>): (r: MoveResult)
    ensures r.ok && r.captured == captured && NoFlags(r)
    ensures r.errorMessage.None? && r.winner.None? && r.loser.None?
  {
    NewMoveResult(true, None, Some(captured), false, false, false, false, None, None)
  }

  /** The first of two passes: the opponent may pass or move. */
  function PassNext(): (r: MoveResult)
    ensures r.ok && r.passed && r.captured == []
    ensures !r.end && !r.resigned && !r.negotiation
  {
    NewMoveResult(true, None, None, true, false, false, false, None, None)
  }

  function PassEnd(): (r: MoveResult)
    ensures r.ok && r.passed && r.end && r.captured == []
    ensures !r.resigned && !r.negotiation
  {
    NewMoveResult(true, None, None, true, true, false, false, None, None)
  }

  function Resign(loser: GamePlayer, winner: GamePlayer): (r: MoveResult)
    ensures !r.ok && r.end && r.resigned && r.captured == []
    ensures !r.passed && !r.negotiation
    ensures r.winner == Some(winner) && r.loser == Some(loser)
  {
    NewMoveResult(false, None, None, false, true, true, false, Some(winner), Some(loser))
  }

  function Error(message: string): (r: MoveResult)
    ensures !r.ok && r.errorMessage == Some(message) && r.captured == [] && NoFlags(r)
    ensures r.winner.None? && r.loser.None?
  {
    NewMoveResult(false, Some(message), Some([]), false, false, false, false, None, None)
  }

  /** The second consecutive pass: dead-stone negotiation begins, the game goes on. */
  function NegotiationStart(): (r: MoveResult)
    ensures r.ok && r.passed && r.negotiation && r.captured == []
    ensures !r.end && !r.resigned
  {
    NewMoveResult(true, None, None, true, false, false, true, None, None)
  }

  /** The factory that produces each meaning. */
  function Build(k: Outcome): MoveResult {
    match k
    case Accepted(stones) => Ok(stones)
    case PassAcknowledged => PassNext()
    case PassEnded => PassEnd()
    case NegotiationStarted => NegotiationStart()
    case Resigned(quitter, victor) => Resign(quitter, victor)
    case Rejected(message) => Error(message)
  }

  /** Reads the meaning back from the flags; None for a combination no factory makes. */
  function Classify(r: MoveResult): Option<Outcome> {
    if r.ok && !r.passed then
      if r == Ok(r.captured) then Some(Accepted(r.captured)) else None
    else if r.ok then
      if r == PassNext() then Some(PassAcknowledged)
      else if r == PassEnd() then Some(PassEnded)
      else if r == NegotiationStart() then Some(NegotiationStarted)
      else None
    else if r.resigned then
      if r.winner.Some? && r.loser.Some? && r == Resign(r.loser.value, r.winner.value)
      then Some(Resigned(r.loser.value, r.winner.value)) else None
    else
      if r.errorMessage.Some? && r == Error(r.errorMessage.value) then Some(Rejected(r.errorMessage.value)) else None
  }

  /** Every factory result has the meaning it was built for. */
  lemma ClassifyBuild(k: Outcome)
    ensures Classify(Build(k)) == Some(k)
  {
  }

  /** A result with a meaning is exactly what that meaning's factory builds. */
  lemma BuildClassify(r: MoveResult, k: Outcome)
    requires Classify(r) == Some(k)
    ensures Build(k) == r
  {
  }
}
