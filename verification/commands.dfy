/** The `!listemojis` handler (bot.js lines 160-187) as the list of replies it
    sends: nothing for bots, direct messages and other commands; one notice
    when the guild has no custom emojis; otherwise one page per chunk of the
    emoji listing, with a 1900-character budget. */
module Commands {
  import opened Options
  import opened Strings
  import opened Tables
  import opened Chunking

  const Prefix: char := '!'
  const ListEmojisCommand: string := "!listemojis"
  const PageBudget: int := 1900
  const NoEmojisReply: string := "\U{274C} No custom emojis found in this server."
  const PageHeader: string := "\U{1F4D9} **Custom Emojis:**\n"

  /** The text before the first blank: the first element of `s.split(/\s+/)`
      once `s` is known not to start with a blank. */
  function FirstToken(s: string): (r: string)
    ensures |r| <= |s| && r == s[..|r|]
    ensures !HasSpace(r)
    ensures |r| < |s| ==> IsSpace(s[|r|])
  {
    if |s| == 0 || IsSpace(s[0]) then ""
    else
      var rest := FirstToken(s[1..]);
      assert forall i :: 1 <= i < |rest| + 1 ==> ([s[0]] + rest)[i] == rest[i - 1];
      [s[0]] + rest
  }

  /** Lines 164-167: the content starts with the prefix and its first token is
      the command. */
  predicate IsListEmojis(content: string) {
    |content| > 0 && content[0] == Prefix && FirstToken(content) == ListEmojisCommand
  }

  lemma {:induction false} FirstTokenOf(a: string, rest: string)
    requires !HasSpace(a)
    requires |rest| == 0 || IsSpace(rest[0])
    ensures FirstToken(a + rest) == a
  {
    if |a| == 0 {
      assert a + rest == rest;
    } else {
      assert !IsSpace(a[0]);
      assert (a + rest)[1..] == a[1..] + rest;
      assert !HasSpace(a[1..]) by {
        forall i | 0 <= i < |a[1..]| ensures !IsSpace(a[1..][i]) { assert a[1..][i] == a[i + 1]; }
      }
      FirstTokenOf(a[1..], rest);
      assert a == [a[0]] + a[1..];
    }
  }

  lemma CommandWordBlankFree()
    ensures !HasSpace(ListEmojisCommand)
  {
    forall i | 0 <= i < |ListEmojisCommand| ensures !IsSpace(ListEmojisCommand[i]) {}
  }

  /** The command is recognised exactly when the content is the command word,
      alone or followed by a blank. */
  lemma IsListEmojisExactly(content: string)
    ensures IsListEmojis(content) <==>
      content == ListEmojisCommand
      || (|content| > |ListEmojisCommand| && content[..|ListEmojisCommand|] == ListEmojisCommand
          && IsSpace(content[|ListEmojisCommand|]))
  {
    var n := |ListEmojisCommand|;
    CommandWordBlankFree();
    if content == ListEmojisCommand {
      FirstTokenOf(content, "");
      assert content + "" == content;
    } else if |content| > n && content[..n] == ListEmojisCommand && IsSpace(content[n]) {
      FirstTokenOf(content[..n], content[n..]);
      assert content[..n] + content[n..] == content;
    }
  }

  /** One listing line: `• name → <[a]:name:id> (ID: `id`, Animated|Static)`. */
  function EmojiLine(e: Emoji): string {
    var formatted := "<" + (if e.animated then "a" else "") + ":" + e.name + ":" + e.id + ">";
    var kind := if e.animated then "Animated" else "Static";
    "\U{2022} " + e.name + " \U{2192} " + formatted + " (ID: `" + e.id + "`, " + kind + ")"
  }

  function EmojiLines(emojis: seq<Emoji>): seq<string> {
    seq(|emojis|, i requires 0 <= i < |emojis| => EmojiLine(emojis[i]))
  }

  /** The pages' bodies, headers removed. */
  function Bodies(replies: seq<string>): seq<string> {
    seq(|replies|, j requires 0 <= j < |replies| =>
      if |PageHeader| <= |replies[j]| then replies[j][|PageHeader|..] else replies[j])
  }

  /** The replies the handler sends for one incoming message. */
  function ListEmojisReplies(authorIsBot: bool, guild: Option<Guild>, content: string): (replies: seq<string>)
    ensures |replies| > 0 <==> !authorIsBot && guild.Some? && IsListEmojis(content)
    ensures |replies| > 0 && |guild.value.emojis| == 0 ==> replies == [NoEmojisReply]
    ensures |replies| > 0 && |guild.value.emojis| > 0 ==>
      && (forall j :: 0 <= j < |replies| ==>
            |PageHeader| <= |replies[j]| && replies[j][..|PageHeader|] == PageHeader)
      && Flatten(Bodies(replies)) == Terminated(EmojiLines(guild.value.emojis))
      && (forall j :: 0 <= j < |replies| ==>
            || |Bodies(replies)[j]| <= PageBudget
            || exists k :: 0 <= k < |guild.value.emojis| && Bodies(replies)[j] == EmojiLine(guild.value.emojis[k]) + "\n")
  {
    if authorIsBot || guild.None? || !IsListEmojis(content) then []
    else if |guild.value.emojis| == 0 then [NoEmojisReply]
    else
      var chunks := ChunkByCharacterLimit(EmojiLines(guild.value.emojis), PageBudget);
      var replies := seq(|chunks|, j requires 0 <= j < |chunks| => PageHeader + chunks[j]);
      assert Bodies(replies) == chunks;
      assert |chunks| > 0 by {
        var t := Terminated(EmojiLines(guild.value.emojis));
        assert |t| > 0;
      }
      replies
  }
}
