/**
 * The closed sets of accepted option values shared by the validators. Their
 * Go declarations are not part of this model; the members are the ones the
 * option and error doc comments list.
 */
module Domains {

  /** validRealms: 'pc', 'xbox' or 'sony'. */
  const ValidRealms: set<string> := {"pc", "xbox", "sony"}

  /** validLadderTypes: 'league', 'pvp' or 'labyrinth'. */
  const ValidLadderTypes: set<string> := {"league", "pvp", "labyrinth"}

  /** validLabyrinthDifficulties: 'Normal', 'Cruel', 'Merciless' or 'Eternal'. */
  const ValidLabyrinthDifficulties: set<string> := {"Normal", "Cruel", "Merciless", "Eternal"}
}
