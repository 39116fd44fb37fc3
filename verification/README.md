# Grow a Garden stock bot: a verified Dafny model

`bot.js` is a Discord bot. Every five minutes it polls a shop-stock API for
the game Grow a Garden. It posts the seed and gear stock as an embed and
pings the roles that subscribe to items now in stock. Items that are always
in stock are excluded from the pings. It also answers a `!listemojis`
command. It splits that listing into chunks of whole lines that stay within
1900 characters, unless a single line is longer, and sends each chunk as a
page after a short header.

This project models the bot's pure core in Dafny: the computations between
the network calls. Each module follows one part of `bot.js`:

- `Tables` (`tables.dfy`): the item-to-role table, the two exclusion lists,
  and the shapes of stock items, emojis and the guild.
- `Roles` (`roles.dfy`): which roles a snapshot pings. It covers per-category
  exclusion, table lookup, the insertion-ordered role set with seeds before
  gear, the mentionable filter and the `<@&id>` mention string.
- `Render` (`render.dfy`): the SEEDS STOCK and GEAR STOCK field texts, the two
  emoji lookup keys and the placeholders.
- `Cycle` (`cycle.dfy`): one run of `checkSeedsAndPingRoles`, from the fetch
  result, the guild and the channel to how the cycle ends and which message
  it sends.
- `Schedule` (`schedule.dfy`): the wake-time arithmetic of
  `scheduleSeedCheck` and the sequence of wake times of the
  self-rescheduling loop.
- `Chunking` (`chunking.dfy`): `chunkByCharacterLimit`, as a fold over groups
  of lines and as the string loop of the source, proved equal.
- `Commands` (`commands.dfy`): the `!listemojis` handler, as the list of
  replies it sends.
- `Strings`, `Options` (`strings.dfy`, `options.dfy`): the JavaScript string
  operations the bot relies on, and an optional value.

Collaborators are passed in as data:

- The guild is a value holding its emojis in cache order, a map from role
  id to `mentionable`, and its channel ids.
- The fetch result is an optional `Stock` (`None` means the fetch threw).
  Each of its item lists is optional (`None` means the field was absent).
- Time is whole wall-clock milliseconds.

Some behaviours of `bot.js` that the model keeps exactly:

- A cycle is skipped only when both item lists are absent. A present but
  empty list still sends an embed, with the placeholders.
- The ping set is ordered by insertion: seed roles first, then gear roles.
- Exclusion and role lookups lower-case the name and nothing else.
- The two emoji lookups use different keys. Seeds also turn each run of
  blanks into `_` (line 85); gear only lower-cases (line 93). So a
  multi-word gear item never matches an emoji whose name has no blanks
  (`Render.GearWithBlankGetsNoEmoji`).

## Model

| member | source | states |
|---|---|---|
| `Tables.ItemRoleIds` | bot.js:13-21 | the item-to-role table, keyed by lower-cased names; `Roles.TomatoPingsOnlyAsGear` states its use for Tomato |
| `Tables.ExcludedSeeds` | bot.js:24 | the seeds that never ping; `Roles.TomatoPingsOnlyAsGear` and `Cycle.CarrotsOnlySendWithoutPing` state its effect |
| `Tables.ExcludedGear` | bot.js:25 | the gear that never pings; `Cycle.TrowelOnly` states its effect |
| `Roles.Excluded` | bot.js:99-100 | the exclusion test on the lower-cased name; `Roles.PingableMembers` states its use |
| `Roles.Pingable` | bot.js:99-100 | the filter of one category, never longer than its input; `Roles.PingableMembers` states which items it keeps |
| `Roles.PingableMembers` | bot.js:99-100 | the ping candidates of a category are exactly its items whose lower-cased name is not on that category's exclusion list |
| `Roles.RoleOf` | bot.js:106-107 | the table lookup of one item; `Roles.MappedRoles` and `Roles.RolesToPingContents` state which ids the items ask for and which are pinged |
| `Roles.MappedRoles` | bot.js:105-113 | an id is among the ids a list of items asks for exactly when some item of the list maps to it |
| `Roles.AddIfAbsent` | bot.js:107 | adding to the ordered set keeps it duplicate-free, keeps what it held in place as a prefix, and adds exactly the new id, so a new id goes last |
| `Roles.FirstOccurrences` | bot.js:103 | the reference for the set's order: duplicate-free, with the same values as its input |
| `Roles.CollectRolesAppendsFirstOccurrences` | bot.js:103-113 | the accumulating loop leaves what it held in place and appends, in first-occurrence order, each id it meets that it did not already hold |
| `Roles.RolesToPingOrder` | bot.js:103-113 | the ping set is the seed roles in first-occurrence order, followed by the gear roles that no seed asked for, in first-occurrence order |
| `Roles.CollectRoles` | bot.js:105-113 | the loop over one category keeps the set it started from as a prefix and keeps it duplicate-free; what it appends is stated by `Roles.CollectRolesAppendsFirstOccurrences` |
| `Roles.RolesToPing` | bot.js:103-113 | `rolesToPingSet` has no duplicates; its order and contents are stated by `Roles.RolesToPingOrder` and `Roles.RolesToPingContents` |
| `Roles.RolesToPingContents` | bot.js:99-113 | the ping set has no duplicates and holds an id exactly when a non-excluded seed or a non-excluded gear item maps to it |
| `Roles.ExcludedSeedIgnored` | bot.js:99-108 | inserting an excluded seed anywhere leaves the ping set unchanged, even when its name is mapped |
| `Roles.ExcludedGearIgnored` | bot.js:100-113 | inserting an excluded gear item anywhere leaves the ping set unchanged |
| `Roles.UnmappedSeedIgnored` | bot.js:105-108 | a seed whose name the table does not map is skipped silently |
| `Roles.TomatoPingsOnlyAsGear` | bot.js:13-25 | with the bot's tables, a Tomato seed pings nothing (excluded as a seed), while a Tomato gear item pings `ROLE_ID_TOMATO` (the seed list does not exclude gear) |
| `Roles.Mentionable` | bot.js:117-118 | the guild filter on one id; `Roles.MentionableRoles` states its use |
| `Roles.MentionableRoles` | bot.js:116-118 | the valid roles are exactly the ids of the set that the guild caches as mentionable, in set order, without duplicates |
| `Roles.Mention` | bot.js:121 | one `<@&id>` mention; `Roles.PingStringRoundTrip` and `Roles.PingStringExact` state that the ping string is read back as its ids |
| `Roles.Mentions` | bot.js:121 | the mentions of a list of ids, in order; `Roles.PingStringRoundTrip` and `Roles.PingStringExact` state their use |
| `Roles.PingString` | bot.js:120-122 | the ping string is empty exactly when no role is valid |
| `Roles.PingStringRoundTrip` | bot.js:120-122 | a strict reader, which accepts only `<@&id>` mentions joined by single spaces (or the empty string), reads the ping string back as the valid roles in order, provided no id contains a space |
| `Roles.PingStringExact` | bot.js:120-122 | conversely, any string the strict reader accepts is exactly the ping string of the ids it reads, and none of those ids contains a space |
| `Roles.DoubledBlankRejected` | bot.js:121 | a string with two blanks in a row after its first token is never read as a list of mentions, so the strict reader does not accept loose spacing |
| `Strings.IsSpace` | bot.js:85 | JavaScript's `\s` class (also bot.js:165): tab to carriage return, the space, U+00A0, U+1680, U+2000 to U+200A, U+2028, U+2029, U+202F, U+205F, U+3000 and U+FEFF; `Strings.UnderscoreRun` and `Commands.FirstToken` state its use |
| `Strings.UnderscoreSpaces` | bot.js:85 | the seed emoji key contains no blank and is no longer than the name |
| `Strings.UnderscoreSpacesIdentity` | bot.js:85 | a blank-free name passes through the blank replacement unchanged |
| `Strings.UnderscoreRun` | bot.js:85 | a whole run of blanks after a blank-free prefix, however long, becomes a single `_`, and the replacement carries on after the run |
| `Strings.Join` | bot.js:121 | `join` with a one-character separator (also bot.js:128); `Strings.JoinSplit`, `Strings.JoinEmpty`, `Render.SeedsFieldLines` and `Roles.PingStringRoundTrip` state what it builds |
| `Strings.JoinSplit` | bot.js:128 | joining the pieces of a split on the same separator gives the string back |
| `Strings.JoinEmpty` | bot.js:128 | a join is empty exactly when it joins no part or one empty part, which is when the field falls back to its placeholder |
| `Strings.Decimal` | bot.js:87 | a quantity is rendered as a non-empty digit string without a leading zero |
| `Strings.DecimalRoundTrip` | bot.js:87 | reading the rendered quantity back gives the quantity |
| `Strings.Lower` | bot.js:85 | `toLowerCase` on ASCII; `Strings.LowerIdempotent` and `Strings.LowerKeepsSpaces` state its properties |
| `Strings.LowerKeepsSpaces` | bot.js:85 | a lower-cased name has a blank exactly when the name has one, so the blank test of the seed key can be made on either |
| `Strings.LowerIdempotent` | bot.js:85-86 | lower-casing a lower-cased string changes nothing, so comparing the lower-cased emoji name with a lower-cased key compares like with like |
| `Render.SeedEmojiKey` | bot.js:85 | the seed lookup key; `Strings.UnderscoreRun`, `Render.SameKeyWithoutBlanks` and `Render.OrangeTulipKeys` state what it is |
| `Render.GearEmojiKey` | bot.js:93 | the gear lookup key; `Render.SameKeyWithoutBlanks`, `Render.OrangeTulipKeys` and `Render.GearWithBlankGetsNoEmoji` state how it differs from the seed key |
| `Render.EmojiTag` | bot.js:87 | the `<:name:id>` tag (also bot.js:95); `Render.SeedsFieldLines` and `Render.GearTextLines` state the lines that carry it |
| `Render.FindEmoji` | bot.js:86 | the emoji lookup finds nothing exactly when no emoji's lower-cased name is the key; otherwise it returns the first emoji in cache order whose lower-cased name is the key |
| `Render.SeedLine` | bot.js:84-88 | one seed line: the emoji tag and a blank when the seed key finds an emoji, then the name, ` x` and the quantity; `Render.SeedsFieldLines` states that the field is these lines |
| `Render.SeedLines` | bot.js:84-88 | the `seedLines` array, one line per seed; `Render.SeedsFieldLines` states that the field splits back into it |
| `Render.SeedsField` | bot.js:128 | the SEEDS STOCK value: the seed lines joined by newlines, or the placeholder; stated by `Render.SeedsFieldLines` and `Render.SeedsFieldPlaceholder` |
| `Render.SeedLineLength` | bot.js:84-88 | a seed line is at most 59 characters longer than the seed's name and quantity, when the guild's emojis are within Discord's limits on name and id length |
| `Render.GearBody` | bot.js:93-95 | one gear line without its newline: the emoji tag when the gear key finds an emoji, then a blank, the name, ` x` and the quantity; `Render.GearTextLines` states that the gear text is these lines |
| `Render.GearText` | bot.js:91-96 | `gearText` after the loop; stated by `Render.GearTextIsTerminatedLines` and `Render.GearTextLines` |
| `Render.GearField` | bot.js:129 | the GEAR STOCK value: the gear text, or the placeholder when it is empty; stated by `Render.GearFieldPlaceholder` |
| `Render.SeedsFieldPlaceholder` | bot.js:128 | the seeds field is `No seeds available` exactly when there are no seeds |
| `Render.SeedsFieldLines` | bot.js:84-88 | splitting the seeds field at newlines gives one line per seed, in input order, when no name contains a newline |
| `Render.GearTextIsTerminatedLines` | bot.js:91-96 | the gear text is each gear item's line, in input order, each followed by a newline |
| `Render.GearFieldPlaceholder` | bot.js:129 | the gear field is `No gear available` exactly when there is no gear |
| `Render.GearTextLines` | bot.js:91-96 | splitting the gear text at newlines gives one line per gear item, in input order, then the empty remainder after the last newline |
| `Render.SameKeyWithoutBlanks` | bot.js:85-93 | for a name without blanks the seed and gear emoji keys coincide |
| `Render.GearWithBlankGetsNoEmoji` | bot.js:93-94 | a gear item with a blank in its name gets no emoji from a guild whose emoji names are blank-free |
| `Render.OrangeTulipKeys` | bot.js:85-93 | `Orange Tulip` is looked up as `orange_tulip` as a seed and as `orange tulip` as gear |
| `Cycle.FieldsAccepted` | bot.js:127-129 | the builder's 1024-character bound on each field value; `Cycle.RunCycle` states that the cycle is rejected exactly when it fails |
| `Cycle.SkipsCycle` | bot.js:63-66 | the cycle is abandoned exactly when both item lists are absent; `Cycle.RunCycle` states the outcome and `Cycle.PresentButEmptyProceeds` the present-but-empty case |
| `Cycle.BuildEmbed` | bot.js:124-131 | the embed: title, colour and the two fields in order; `Cycle.BuildMessage` states its fields' placeholders |
| `Cycle.BuildMessage` | bot.js:115-137 | the message carries content exactly when some role of the ping set is mentionable, and that content is non-empty; each field is its placeholder exactly when its list is empty |
| `Cycle.RunCycle` | bot.js:60-143 | a cycle ends with a failed fetch, with neither item list present, with no guild, or with no channel, each exactly in its case and in the source's order; after those checks it is rejected exactly when a field value of the built embed is longer than 1024 characters, and otherwise it sends the message built from the lists, with an absent list read as empty |
| `Cycle.MessagePingsMentionableRoles` | bot.js:116-137 | the message's ping text names exactly the mentionable roles of the ping set, in set order, or is absent when there are none, provided no role id of the guild contains a space |
| `Cycle.PresentButEmptyProceeds` | bot.js:63-81 | a response whose seed list is present but empty and whose gear list is absent still sends an embed with both placeholders and no ping |
| `Cycle.CarrotsOnlySendWithoutPing` | bot.js:99-137 | a stock of three carrots (an excluded seed) and no gear sends the embed without any ping, whatever the guild's roles, for a guild whose emojis are within Discord's limits |
| `Cycle.TrowelOnly` | bot.js:91-129 | no seeds and two trowels, in a guild without a trowel emoji, give the seeds placeholder and the gear text ` Trowel x2` plus a newline, and send no ping, since the trowel is excluded gear |
| `Schedule.NextCheck` | bot.js:148 | `nextCheck`; `Schedule.NextCheckClosedForm` and `Schedule.NextCheckAligned` state which instant it is |
| `Schedule.Wait` | bot.js:149 | `waitMs`; `Schedule.WaitBounds` states its range |
| `Schedule.WakeTimes` | bot.js:146-156 | one wake per cycle plus the next, the first being the next check after the bot becomes ready; `Schedule.WakeTimesSpacing` states the spacing |
| `Schedule.StartOfMinute` | bot.js:148 | truncation to the minute gives the minute boundary at or before the instant, less than a minute earlier |
| `Schedule.NextCheckClosedForm` | bot.js:148 | the next check is the first multiple of five minutes strictly after now |
| `Schedule.NextCheckAligned` | bot.js:148 | the next check falls on a minute that is a multiple of five with zero seconds and milliseconds, is strictly after now and at most five minutes later, and no such boundary lies in between |
| `Schedule.WaitBounds` | bot.js:149 | the wait is positive and at most five minutes; it is exactly five minutes when now is on a boundary, so a timer that does not fire early never fires twice at one boundary |
| `Schedule.NoonExamples` | bot.js:148 | 12:07:00 is followed by 12:10:00, and 12:10:00 by 12:15:00 |
| `Schedule.WakeTimesSpacing` | bot.js:146-156 | every wake of the self-rescheduling loop is on a five-minute boundary; the gap after a wake is the fewest whole periods longer than the cycle it ran, so exactly one period when the cycle settles within five minutes |
| `Chunking.Feed` | bot.js:195-199 | one iteration of the loop, on groups of lines; `Chunking.FeedOverflow` and `Chunking.FeedFit` state that each of its two branches keeps the loop invariant |
| `Chunking.FeedOverflow` | bot.js:195-199 | when the next line would pass the budget, closing the current group and opening one with that line keeps the loop invariant |
| `Chunking.FeedFit` | bot.js:199 | when the next line fits, adding it to the current group keeps the loop invariant |
| `Chunking.FeedAll` | bot.js:194-200 | the loop over every line; `Chunking.FeedAllInvariant` states the invariant it keeps |
| `Chunking.FeedAllInvariant` | bot.js:194-200 | after any prefix of the lines, the groups closed so far plus the open group hold those lines in order, each fits the budget or holds at most one line, only the first can be empty, and each group was closed because the next line would not fit |
| `Chunking.Groups` | bot.js:201 | the groups after the final push of a non-empty current chunk; `Chunking.GroupsProperties` states what they are |
| `Chunking.GroupsProperties` | bot.js:190-203 | the final groups partition the lines in order; no input gives no groups; each fits or holds one line; only the first can be empty, exactly when the first line alone is over budget; every group was closed only because the next line would not fit |
| `Chunking.ChunkByCharacterLimit` | bot.js:190-203 | the chunks concatenate to every line plus a newline, in order; no input gives no chunks; each chunk is within the budget, empty, or one oversized line with its newline; a chunk is empty exactly when it is the first and the first line alone is over budget |
| `Chunking.ChunkLines` | bot.js:190-203 | the string loop as written computes the same chunks as the group fold |
| `Commands.IsListEmojis` | bot.js:164-167 | the command test; `Commands.IsListEmojisExactly` states which contents pass it |
| `Commands.FirstToken` | bot.js:165 | the command word is the longest blank-free prefix of the content |
| `Commands.IsListEmojisExactly` | bot.js:164-167 | the command is recognised exactly when the content is `!listemojis` alone or followed by a blank |
| `Commands.EmojiLine` | bot.js:174-178 | one listing line; `Commands.ListEmojisReplies` states that the pages carry exactly these lines |
| `Commands.EmojiLines` | bot.js:174-178 | the listing lines of the emoji cache; `Commands.ListEmojisReplies` states that the pages carry them, in cache order |
| `Commands.ListEmojisReplies` | bot.js:160-187 | the handler replies exactly to a non-bot guild message carrying the command; with no emojis it sends the single notice; otherwise every page starts with the header, the pages' bodies concatenate to every emoji line plus a newline, in cache order, and each body is within the 1900-character budget or is a single emoji line with its newline |

## Left out

- The Express health server (bot.js:28-32), the Discord client setup and its login (bot.js:35-48): network I/O.
- `fetchSeeds` (bot.js:51-57) is HTTP plus JSON parsing. Its result appears only as an optional `Stock` with optional item lists. An item whose `name` is not a string makes the source throw and abort the cycle; the model assumes string names.
- Guild, channel, role and emoji cache lookups are the guild value passed in. Role ids are the keys of the role cache, as in Discord.
- `channel.send` and its failures (bot.js:133-137), and the console logging: I/O. In the cycle, a failed send is caught and only logged. Discord's other limits on a message (6000 characters over the whole embed, 2000 characters of content) surface only as such a failed send, so they are not modelled.
- `Cycle.RunCycle`: the embed's field-value limit of discord.js's `EmbedBuilder.addFields` (1024 characters, bot.js:126-129) is modelled as the `EmbedRejected` outcome, which the source catches and logs (bot.js:140-142). The limit is counted in Unicode characters here, while JavaScript counts UTF-16 code units, so a field with text outside the Basic Multilingual Plane can be rejected by the bot and accepted by the model.
- `Cycle.CarrotsOnlySendWithoutPing`: holds only for guilds whose emojis keep Discord's limits on custom emojis (a name of at most 32 characters, an id of at most 20 digits, `Tables.WithinDiscordLimits`). Discord enforces those limits, and without them a single emoji tag could push the seeds field past 1024 characters.
- `Commands.ListEmojisReplies`: the handler (bot.js:160-187) has no `try`/`catch`, and the client has no `error` listener. A failed send of one page is an unhandled promise rejection inside the `async` listener. On the Node versions discord.js v14 requires, that ends the whole process, the polling loop included. The model gives the pages the handler tries to send, in order, as if every send succeeds.
- `Schedule.WakeTimes`: `setTimeout` and the `async` re-arming (bot.js:153-156) are timer and promise sequencing, and only the wake-time arithmetic is kept. Each cycle's duration, timer lateness included, is a given natural number, so the model assumes the clock read after a wake is never before the wake target. Node does not promise that a timer never fires early; a timer that fired early would read a clock before the boundary and could schedule that same boundary again.
- Luxon time zones and daylight-saving shifts: time is plain wall-clock milliseconds.
- `Strings.Lower`: `toLowerCase` is modelled for ASCII letters only. Other Unicode case mappings are not modelled.
- `Strings.Decimal`: JavaScript prints numbers of 10^21 and above in exponent notation and prints fractions. Quantities are modelled as whole numbers with plain decimal digits.
- JavaScript string length counts UTF-16 code units. The chunk budget here counts Unicode characters, so text outside the Basic Multilingual Plane counts as one character instead of two.
- The table lookup's prototype quirk (a name such as `constructor` finds an inherited property): the table is a plain map.
- The embed timestamp (`setTimestamp`, bot.js:131) reads the clock, so it is not modelled. The title, colour and field names are.
