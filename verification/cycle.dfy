/** One run of `checkSeedsAndPingRoles` (bot.js lines 60-143) as a pure
    function from what the bot observed to what it does: abort on a failed
    fetch, on a response carrying neither item list, on a missing guild or
    channel; otherwise send one embed, with the role pings as its content
    when at least one role is mentionable. */
module Cycle {
  import opened Options
  import opened Strings
  import opened Tables
  import opened Roles
  import opened Render

  /** The two item lists of the API response; `None` is a list that is absent. */
  datatype Stock = Stock(seedItems: Option<seq<Item>>, gearItems: Option<seq<Item>>)

  datatype Field = Field(name: string, value: string, inline: bool)

  datatype Embed = Embed(title: string, color: nat, fields: seq<Field>)

  /** What `channel.send` receives: the optional ping text and the embed. */
  datatype Message = Message(content: Option<string>, embed: Embed)

  /** How one cycle ends. */
  datatype Outcome =
    | FetchFailed
    | NoStock
    | NoGuild
    | NoChannel
    | EmbedRejected
    | Sent(message: Message)

  const Title: string := "\U{1F331} Grow a Garden Stock"
  const Color: nat := 0x22bb33

  /** The longest field value discord.js's `EmbedBuilder.addFields` accepts;
      a longer one makes it throw, and the cycle's `catch` swallows that. */
  const FieldValueLimit: nat := 1024

  /** Every field of the embed passes the builder's validation. */
  predicate FieldsAccepted(e: Embed) {
    forall i :: 0 <= i < |e.fields| ==> |e.fields[i].value| <= FieldValueLimit
  }

  /** The guard of lines 63-66: a cycle is abandoned only when BOTH lists are
      absent; a present but empty list lets it proceed. */
  predicate SkipsCycle(stock: Stock) {
    stock.seedItems.None? && stock.gearItems.None?
  }

  function BuildEmbed(seeds: seq<Item>, gear: seq<Item>, emojis: seq<Emoji>): Embed {
    Embed(Title, Color, [
      Field("SEEDS STOCK", SeedsField(seeds, emojis), false),
      Field("GEAR STOCK", GearField(gear, emojis), false)
    ])
  }

  /** The message of lines 115-137 for the given item lists. */
  function BuildMessage(cfg: Config, seeds: seq<Item>, gear: seq<Item>, guild: Guild): (m: Message)
    ensures m.content.Some? <==> exists id :: id in RolesToPing(cfg, seeds, gear) && Mentionable(guild, id)
    ensures m.content.Some? ==> m.content.value != ""
    ensures |m.embed.fields| == 2
    ensures m.embed.fields[0].value == SeedsPlaceholder <==> |seeds| == 0
    ensures m.embed.fields[1].value == GearPlaceholder <==> |gear| == 0
  {
    var ids := RolesToPing(cfg, seeds, gear);
    var valid := MentionableRoles(ids, guild);
    var ping := PingString(valid);
    assert |valid| > 0 ==> valid[0] in valid;
    assert (exists id :: id in ids && Mentionable(guild, id)) <==> |valid| > 0;
    SeedsFieldPlaceholder(seeds, guild.emojis);
    GearFieldPlaceholder(gear, guild.emojis);
    var embed := BuildEmbed(seeds, gear, guild.emojis);
    if ping != "" then Message(Some(ping), embed) else Message(None, embed)
  }

  /** One poll cycle. `fetched` is `None` when the fetch threw (network
      failure, non-2xx status, malformed JSON); `guild` is the first cached
      guild; `channelId` is the configured target channel. Building the
      embed throws, and nothing is sent, when a field value is too long. */
  function RunCycle(cfg: Config, fetched: Option<Stock>, guild: Option<Guild>, channelId: string): (r: Outcome)
    ensures r == FetchFailed <==> fetched.None?
    ensures r == NoStock <==> fetched.Some? && SkipsCycle(fetched.value)
    ensures r == NoGuild <==> fetched.Some? && !SkipsCycle(fetched.value) && guild.None?
    ensures r == NoChannel <==>
      fetched.Some? && !SkipsCycle(fetched.value) && guild.Some? && channelId !in guild.value.channels
    ensures r == EmbedRejected <==>
      && fetched.Some? && !SkipsCycle(fetched.value) && guild.Some? && channelId in guild.value.channels
      && !FieldsAccepted(BuildMessage(cfg, fetched.value.seedItems.ValueOr([]), fetched.value.gearItems.ValueOr([]), guild.value).embed)
    ensures r.Sent? ==>
      var seeds, gear := fetched.value.seedItems.ValueOr([]), fetched.value.gearItems.ValueOr([]);
      r.message == BuildMessage(cfg, seeds, gear, guild.value) && FieldsAccepted(r.message.embed)
  {
    match fetched
    case None => FetchFailed
    case Some(stock) =>
      if SkipsCycle(stock) then NoStock
      else match guild
        case None => NoGuild
        case Some(g) =>
          if channelId !in g.channels then NoChannel
          else
            var seeds := stock.seedItems.ValueOr([]);
            var gear := stock.gearItems.ValueOr([]);
            var m := BuildMessage(cfg, seeds, gear, g);
            if FieldsAccepted(m.embed) then Sent(m) else EmbedRejected
  }

  /** The ping text of a message names exactly the roles of the ping set the
      guild lets the bot mention, in set order (no text when there are none),
      provided no role id of the guild contains a space. */
  lemma MessagePingsMentionableRoles(cfg: Config, seeds: seq<Item>, gear: seq<Item>, guild: Guild)
    requires forall id :: id in guild.roles ==> ' ' !in id
    ensures MentionedIds(BuildMessage(cfg, seeds, gear, guild).content.ValueOr(""))
            == Some(MentionableRoles(RolesToPing(cfg, seeds, gear), guild))
  {
    var valid := MentionableRoles(RolesToPing(cfg, seeds, gear), guild);
    forall i | 0 <= i < |valid| ensures ' ' !in valid[i] {
      assert valid[i] in valid;
    }
    PingStringRoundTrip(valid);
  }

  /** A response whose one list is present but empty still sends an embed,
      with the placeholder in both sections and no ping. */
  lemma PresentButEmptyProceeds(cfg: Config, guild: Guild, channelId: string)
    requires channelId in guild.channels
    ensures var r := RunCycle(cfg, Some(Stock(Some([]), None)), Some(guild), channelId);
            && r.Sent?
            && r.message.content.None?
            && r.message.embed.fields[0].value == SeedsPlaceholder
            && r.message.embed.fields[1].value == GearPlaceholder
  {
    assert RolesToPing(cfg, [], []) == [];
  }

  /** A stock of carrots alone, carrots being excluded, sends the embed
      without any ping, whatever the guild's roles. */
  lemma CarrotsOnlySendWithoutPing(guild: Guild, channelId: string)
    requires channelId in guild.channels
    requires forall k :: 0 <= k < |guild.emojis| ==> WithinDiscordLimits(guild.emojis[k])
    ensures var r := RunCycle(BotConfig, Some(Stock(Some([Item("Carrot", 3)]), Some([]))), Some(guild), channelId);
            r.Sent? && r.message.content.None?
  {
    var c := Item("Carrot", 3);
    assert Lower("Carrot") == "carrot";
    ExcludedSeedIgnored(BotConfig, [], c, [], []);
    var m := BuildMessage(BotConfig, [c], [], guild);
    assert m.content.None?;
    assert FieldsAccepted(m.embed) by {
      SeedLineLength(c, guild.emojis);
      assert SeedLines([c], guild.emojis) == [SeedLine(c, guild.emojis)];
      assert |SeedsField([c], guild.emojis)| <= FieldValueLimit;
      assert GearField([], guild.emojis) == GearPlaceholder;
    }
  }

  /** Two trowels and no seeds, in a guild without a trowel emoji: the seeds
      section is the placeholder, the gear section is ` Trowel x2` with its
      newline, and nothing is pinged, since the trowel is excluded gear. */
  lemma TrowelOnly(guild: Guild, channelId: string)
    requires channelId in guild.channels
    requires forall e :: e in guild.emojis ==> Lower(e.name) != "trowel"
    ensures var r := RunCycle(BotConfig, Some(Stock(Some([]), Some([Item("Trowel", 2)]))), Some(guild), channelId);
            && r.Sent?
            && r.message.embed.fields[0].value == SeedsPlaceholder
            && r.message.embed.fields[1].value == " Trowel x2\n"
            && r.message.content.None?
  {
    var m := BuildMessage(BotConfig, [], [Item("Trowel", 2)], guild);
    TrowelFields(guild);
    assert FieldsAccepted(m.embed) by {
      assert |m.embed.fields| == 2;
    }
    var stock := Stock(Some([]), Some([Item("Trowel", 2)]));
    assert stock.seedItems.ValueOr([]) == [] && stock.gearItems.ValueOr([]) == [Item("Trowel", 2)];
    var r := RunCycle(BotConfig, Some(stock), Some(guild), channelId);
    assert r != EmbedRejected;
    assert r.Sent?;
  }

  lemma TrowelFields(guild: Guild)
    requires forall e :: e in guild.emojis ==> Lower(e.name) != "trowel"
    ensures var m := BuildMessage(BotConfig, [], [Item("Trowel", 2)], guild);
            && m.embed.fields[0].value == SeedsPlaceholder
            && m.embed.fields[1].value == " Trowel x2\n"
            && m.content.None?
  {
    var t := Item("Trowel", 2);
    assert Lower("Trowel") == "trowel";
    assert RolesToPing(BotConfig, [], [t]) == [] by {
      ExcludedGearIgnored(BotConfig, [], [], t, []);
    }
    assert FindEmoji(guild.emojis, GearEmojiKey(t.name)).None?;
    assert GearBody(t, guild.emojis) == " Trowel x2";
    assert GearText([t], guild.emojis) == " Trowel x2\n";
  }
}
