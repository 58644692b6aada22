/** The two poker variants every component distinguishes. */
module Games {
  datatype Game = NLH | PLO4

  function HoleCount(game: Game): nat { if game == NLH then 2 else 4 }
}
