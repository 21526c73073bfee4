/** The configuration values of `utils/constants.py`, plus the fixed
    thresholds and messages that the handlers use. */
module Constants {

  const ChatbotName: string := "Beetle Juice"
  const StoreName: string := "Gamebox"
  const UserName: string := "You"

  /** Threshold used by the matcher when the caller gives none (or a falsy one). */
  const DefaultSimilarityThreshold: real := 0.65

  const PsAlternatives: seq<string> := [
    "ps", "ps1", "ps2", "ps3", "ps4", "ps5",
    "play station", "play station 1", "play station 2",
    "play station 3", "play station 4", "play station 5"
  ]

  const AvailablePlatforms: seq<string> := [
    "pc", "xbox", "playstation",
    "playstation 1", "playstation 2", "playstation 3", "playstation 4", "playstation 5"
  ] + PsAlternatives

  const AvailableGenres: seq<string> := ["adventure", "action", "puzzle"]

  /** A console line printed by the chatbot. */
  function Say(message: string): string
  {
    ChatbotName + ": " + message
  }

  /** The preference keys the handlers use. */
  const UsernameKey: string := "username"
  const GameInContextKey: string := "game_in_context"
}
