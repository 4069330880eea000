/**
 * The value types the core passes around (types.go), and the three fields of
 * the client struct that the modelled code reads.
 */
module Types {

  /** A player's character in a ladder entry. */
  datatype Character = Character(name: string, level: int, className: string, id: string, experience: int)

  /** An account's completed challenges. */
  datatype Challenges = Challenges(total: int)

  /** The account of a ladder entry. */
  datatype Account = Account(name: string, realm: string, challenges: Challenges)

  /** One row of a ladder. */
  datatype LadderEntry = LadderEntry(online: bool, rank: int, labyrinthTime: int,
                                     character: Character, account: Account)

  /** A leaderboard page: its metadata and the entries it carries. */
  datatype Ladder = Ladder(totalEntries: int, title: string, startTime: int, entries: seq<LadderEntry>)

  /** A modifier placed on a league. */
  datatype LeagueRule = LeagueRule(id: string, name: string, description: string)

  /**
   * A league. Timestamps are integers on one clock; 0 stands for Go's zero
   * time.Time, which is what an absent end time decodes to.
   */
  datatype League = League(name: string, realm: string, description: string, ladderURL: string,
                           startTime: int, endTime: int, delveEnabled: bool, rules: seq<LeagueRule>)

  /** The client configuration the URL builders read: API host, scheme switch, poe.ninja host. */
  datatype Client = Client(host: string, useSSL: bool, ninjaHost: string)
}
