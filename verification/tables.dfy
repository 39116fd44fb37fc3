/** The bot's static configuration: the item-to-role table and the two
    per-category exclusion lists (bot.js lines 13-25), plus the shapes of the
    stock items and of the guild the bot reads from. */
module Tables {

  /** One stock entry as the inventory API reports it. */
  datatype Item = Item(name: string, quantity: nat)

  /** The read-only configuration one poll cycle consults. Keys are
      lower-cased item names. */
  datatype Config = Config(
    roleIds: map<string, string>,
    excludedSeeds: seq<string>,
    excludedGear: seq<string>)

  const ItemRoleIds: map<string, string> := map[
    "orange tulip" := "1397255905007112243",
    "tomato" := "ROLE_ID_TOMATO",
    "corn" := "ROLE_ID_CORN",
    "basic sprinkler" := "ROLE_ID_BASIC_SPRINKLER",
    "godly sprinkler" := "ROLE_ID_GODLY_SPRINKLER",
    "magnifying glass" := "ROLE_ID_MAGNIFYING_GLASS"
  ]

  /** Seeds that are always in stock and so never ping. */
  const ExcludedSeeds: seq<string> := ["carrot", "blueberry", "strawberry", "tomato"]

  /** Gear that is always in stock and so never pings. */
  const ExcludedGear: seq<string> :=
    ["watering can", "recall wrench", "trowel", "cleaning spray", "favorite tool", "harvest tool"]

  const BotConfig: Config := Config(ItemRoleIds, ExcludedSeeds, ExcludedGear)

  /** A custom emoji of the guild. */
  datatype Emoji = Emoji(name: string, id: string, animated: bool)

  /** Discord's own bounds on a custom emoji: a name of at most 32
      characters and a snowflake id of at most 20 decimal digits. */
  predicate WithinDiscordLimits(e: Emoji) {
    |e.name| <= 32 && |e.id| <= 20
  }

  /** What the bot reads from the guild it sits in: its custom emojis in
      cache order, each cached role's id with its `mentionable` flag, and
      the ids of its cached channels. */
  datatype Guild = Guild(emojis: seq<Emoji>, roles: map<string, bool>, channels: set<string>)
}
