/**
 The records of the play-by-play feed. Both carry data only; their JSON field
 names are `typeDescKey` and `plays`.
 */
module Models {

  /** One play of a hockey game, tagged with its type ("faceoff", "goal", ...). */
  datatype Play = Play(typeDescKey: string)

  /** One response of the play-by-play feed: the plays it reports, in order. */
  datatype PlayByPlayResponse = PlayByPlayResponse(plays: seq<Play>)
}
