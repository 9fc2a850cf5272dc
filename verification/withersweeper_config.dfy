/** The game configuration: the board and player settings, the flag item, the
    mistake limit and the "uncover neighbours" switch, with the defaults the
    configuration codec fills in for keys a configuration document leaves out. */
module WithersweeperConfig {
  import opened JavaInt

  /** The board settings; only the side length `x` and the mine count are modelled. */
  datatype BoardConfig = BoardConfig(x: int, mines: int)

  /** The lobby's player limits. */
  datatype PlayerConfig = PlayerConfig(minPlayers: int, maxPlayers: int)

  /** An item stack, reduced to its item identifier and its count. */
  datatype ItemStack = ItemStack(item: string, count: int)

  /** A single red banner: the flag item when the document names none. */
  const RedBanner: ItemStack := ItemStack("minecraft:red_banner", 1)
  const DefaultMaxMistakes: Int32 := 1
  const DefaultUncoverNeighbors: bool := false

  datatype Config = Config(
    boardConfig: BoardConfig,
    playerConfig: PlayerConfig,
    flagStack: ItemStack,
    maxMistakes: Int32,
    uncoverNeighbors: bool)
  {
    function GetBoardConfig(): BoardConfig { boardConfig }
    function GetPlayerConfig(): PlayerConfig { playerConfig }
    function GetFlagStack(): ItemStack { flagStack }
    function GetMaxMistakes(): Int32 { maxMistakes }
    function UncoverNeighbors(): bool { uncoverNeighbors }
  }

  /** The constructor: every argument is stored as given and read back unchanged by its getter. */
  function New(boardConfig: BoardConfig, playerConfig: PlayerConfig, flagStack: ItemStack,
               maxMistakes: Int32, uncoverNeighbors: bool): (c: Config)
    ensures c.GetBoardConfig() == boardConfig
    ensures c.GetPlayerConfig() == playerConfig
    ensures c.GetFlagStack() == flagStack
    ensures c.GetMaxMistakes() == maxMistakes
    ensures c.UncoverNeighbors() == uncoverNeighbors
  {
    Config(boardConfig, playerConfig, flagStack, maxMistakes, uncoverNeighbors)
  }

  /** A configuration holds no state besides what its getters return: rebuilding it
      from its getters gives it back. */
  lemma NewFromGetters(c: Config)
    ensures New(c.GetBoardConfig(), c.GetPlayerConfig(), c.GetFlagStack(),
                c.GetMaxMistakes(), c.UncoverNeighbors()) == c
  {
  }

  datatype Option<T> = None | Some(value: T)

  /** A configuration document: one optional entry per key the codec knows
      (`board`, `players`, `flag_stack`, `max_mistakes`, `uncover_neighbors`). */
  datatype Document = Document(
    board: Option<BoardConfig>,
    players: Option<PlayerConfig>,
    flagStack: Option<ItemStack>,
    maxMistakes: Option<Int32>,
    uncoverNeighbors: Option<bool>)

  /** Decoding either yields a configuration or names the required keys that are missing. */
  datatype Decoded = Decoded(config: Config) | MissingKeys(keys: set<string>)

  function OrElse<T>(entry: Option<T>, default: T): T
  {
    match entry
    case Some(v) => v
    case None => default
  }

  /** Decodes a document: `board` and `players` are required; an absent optional key
      takes its default. */
  function Decode(d: Document): (r: Decoded)
    ensures r.Decoded? <==> d.board.Some? && d.players.Some?
    ensures r.MissingKeys? ==> r.keys != {}
    ensures r.MissingKeys? ==> ("board" in r.keys <==> d.board.None?)
    ensures r.MissingKeys? ==> ("players" in r.keys <==> d.players.None?)
    ensures r.MissingKeys? ==> r.keys <= {"board", "players"}
    ensures r.Decoded? ==> r.config.GetBoardConfig() == d.board.value
    ensures r.Decoded? ==> r.config.GetPlayerConfig() == d.players.value
    ensures r.Decoded? && d.flagStack.None? ==> r.config.GetFlagStack() == RedBanner
    ensures r.Decoded? && d.flagStack.Some? ==> r.config.GetFlagStack() == d.flagStack.value
    ensures r.Decoded? && d.maxMistakes.None? ==> r.config.GetMaxMistakes() == 1
    ensures r.Decoded? && d.maxMistakes.Some? ==> r.config.GetMaxMistakes() == d.maxMistakes.value
    ensures r.Decoded? && d.uncoverNeighbors.None? ==> !r.config.UncoverNeighbors()
    ensures r.Decoded? && d.uncoverNeighbors.Some? ==> r.config.UncoverNeighbors() == d.uncoverNeighbors.value
  {
    if d.board.None? || d.players.None? then
      MissingKeys((if d.board.None? then {"board"} else {}) + (if d.players.None? then {"players"} else {}))
    else
      Decoded(New(d.board.value, d.players.value,
                  OrElse(d.flagStack, RedBanner),
                  OrElse(d.maxMistakes, DefaultMaxMistakes),
                  OrElse(d.uncoverNeighbors, DefaultUncoverNeighbors)))
  }

  /** Encodes a configuration through its getters, writing every key. */
  function Encode(c: Config): (d: Document)
    ensures d.board.Some? && d.players.Some? && d.flagStack.Some?
    ensures d.maxMistakes.Some? && d.uncoverNeighbors.Some?
  {
    Document(Some(c.GetBoardConfig()), Some(c.GetPlayerConfig()), Some(c.GetFlagStack()),
             Some(c.GetMaxMistakes()), Some(c.UncoverNeighbors()))
  }

  /** Decoding an encoded configuration gives the configuration back. */
  lemma DecodeEncode(c: Config)
    ensures Decode(Encode(c)) == Decoded(c)
  {
  }

  /** A document with every key present survives a decode followed by an encode. */
  lemma EncodeDecode(d: Document)
    requires d.board.Some? && d.players.Some? && d.flagStack.Some?
    requires d.maxMistakes.Some? && d.uncoverNeighbors.Some?
    ensures Decode(d).Decoded? && Encode(Decode(d).config) == d
  {
  }

  /** Leaving `max_mistakes` out decodes exactly as writing it as 1, and leaving out
      `uncover_neighbors` exactly as writing it as false. */
  lemma AbsentKeysMeanDefaults(d: Document)
    ensures Decode(d.(maxMistakes := None)) == Decode(d.(maxMistakes := Some(1)))
    ensures Decode(d.(uncoverNeighbors := None)) == Decode(d.(uncoverNeighbors := Some(false)))
  {
  }
}
