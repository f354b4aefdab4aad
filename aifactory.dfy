/** The AI factory: one AI type, a fresh player per request. */
module AIFactory {
  import opened Java
  import opened AI

  /** The AI types the factory can build. */
  datatype AIType = Simple

  /**
   * `getAIPlayer`: a null type throws; `SIMPLE` gives a new player with no
   * board, no mark and id 0.
   */
  method GetAIPlayer(aiType: Option<AIType>) returns (r: Result<SimpleAIPlayer>)
    ensures aiType == None ==> r == Throws(NullPointer)
    ensures aiType != None ==>
      r.Ok? && fresh(r.value) && r.value.gameBoard == null && r.value.myBoardMark == None && r.value.myId == 0
  {
    if aiType == None {
      return Throws(NullPointer);
    }
    match aiType.value
    case Simple =>
      var player := new SimpleAIPlayer();
      return Ok(player);
  }

  /** A player straight from the factory cannot move until it is given a board and a mark. */
  method FactoryPlayerCannotMove() returns (r: Result<int>)
    ensures r == Throws(NullPointer)
  {
    var made := GetAIPlayer(Some(Simple));
    r := made.value.GetNextMove();
  }
}
