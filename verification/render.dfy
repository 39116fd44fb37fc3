/** The two text sections of the stock embed (bot.js lines 83-96 and
    128-129): one line per seed joined by newlines, one newline-terminated
    line per gear item, each optionally led by the guild's matching custom
    emoji, and a fixed placeholder for an empty section. */
module Render {
  import opened Options
  import opened Strings
  import opened Tables

  const SeedsPlaceholder: string := "No seeds available"
  const GearPlaceholder: string := "No gear available"

  /** `guild.emojis.cache.find(e => e.name.toLowerCase() === key)`: the first
      emoji, in cache order, whose lower-cased name is the key. */
  function FindEmoji(emojis: seq<Emoji>, key: string): (r: Option<Emoji>)
    ensures r.None? <==> forall e :: e in emojis ==> Lower(e.name) != key
    ensures r.Some? ==> exists i :: 0 <= i < |emojis| && emojis[i] == r.value && Lower(r.value.name) == key
                                    && forall j :: 0 <= j < i ==> Lower(emojis[j].name) != key
  {
    if |emojis| == 0 then None
    else if Lower(emojis[0].name) == key then Some(emojis[0])
    else
      var r := FindEmoji(emojis[1..], key);
      assert forall e :: e in emojis <==> e == emojis[0] || e in emojis[1..];
      assert r.Some? ==> exists i :: 0 <= i < |emojis| && emojis[i] == r.value
                                    && forall j :: 0 <= j < i ==> Lower(emojis[j].name) != key by {
        if r.Some? {
          var i :| 0 <= i < |emojis[1..]| && emojis[1..][i] == r.value
                   && forall j :: 0 <= j < i ==> Lower(emojis[1..][j].name) != key;
          assert emojis[i + 1] == r.value;
          forall j | 0 <= j < i + 1 ensures Lower(emojis[j].name) != key {
            if j > 0 { assert emojis[j] == emojis[1..][j - 1]; }
          }
        }
      }
      r
  }

  /** Seeds look their emoji up by lower-cased name with each run of blanks
      replaced by `_` (line 85). */
  function SeedEmojiKey(name: string): string {
    UnderscoreSpaces(Lower(name))
  }

  /** Gear looks its emoji up by the lower-cased name only (line 93). */
  function GearEmojiKey(name: string): string {
    Lower(name)
  }

  /** `<:name:id>`, the inline form of a custom emoji. */
  function EmojiTag(e: Emoji): string {
    "<:" + e.name + ":" + e.id + ">"
  }

  /** One seed line: `[<:emoji:id> ]name xQ`. */
  function SeedLine(seed: Item, emojis: seq<Emoji>): string {
    var prefix := match FindEmoji(emojis, SeedEmojiKey(seed.name))
      case Some(e) => EmojiTag(e) + " "
      case None => "";
    prefix + seed.name + " x" + Decimal(seed.quantity)
  }

  function SeedLines(seeds: seq<Item>, emojis: seq<Emoji>): seq<string> {
    seq(|seeds|, i requires 0 <= i < |seeds| => SeedLine(seeds[i], emojis))
  }

  /** The value of the SEEDS STOCK field. */
  function SeedsField(seeds: seq<Item>, emojis: seq<Emoji>): string {
    var text := Join(SeedLines(seeds, emojis), '\n');
    if text == "" then SeedsPlaceholder else text
  }

  /** One gear line without its newline: `[<:emoji:id>] name xQ`; the blank
      before the name is there whether or not an emoji was found. */
  function GearBody(g: Item, emojis: seq<Emoji>): string {
    var prefix := match FindEmoji(emojis, GearEmojiKey(g.name))
      case Some(e) => EmojiTag(e)
      case None => "";
    prefix + " " + g.name + " x" + Decimal(g.quantity)
  }

  function GearBodies(gear: seq<Item>, emojis: seq<Emoji>): seq<string> {
    seq(|gear|, i requires 0 <= i < |gear| => GearBody(gear[i], emojis))
  }

  /** `gearText` after the loop of lines 92-96. */
  function GearText(gear: seq<Item>, emojis: seq<Emoji>): string {
    if |gear| == 0 then "" else GearBody(gear[0], emojis) + "\n" + GearText(gear[1..], emojis)
  }

  /** The value of the GEAR STOCK field. */
  function GearField(gear: seq<Item>, emojis: seq<Emoji>): string {
    var text := GearText(gear, emojis);
    if text == "" then GearPlaceholder else text
  }

  // ----- Properties of the two sections -----

  /** With Discord's emoji bounds, the emoji tag and its blank add at most 57
      characters to a seed's name and quantity. */
  lemma SeedLineLength(seed: Item, emojis: seq<Emoji>)
    requires forall k :: 0 <= k < |emojis| ==> WithinDiscordLimits(emojis[k])
    ensures |SeedLine(seed, emojis)| <= 57 + |seed.name| + 2 + |Decimal(seed.quantity)|
  {
    var f := FindEmoji(emojis, SeedEmojiKey(seed.name));
    if f.Some? {
      var i :| 0 <= i < |emojis| && emojis[i] == f.value && Lower(f.value.name) == SeedEmojiKey(seed.name)
               && forall j :: 0 <= j < i ==> Lower(emojis[j].name) != SeedEmojiKey(seed.name);
      assert WithinDiscordLimits(emojis[i]);
    }
  }

  /** A join whose last part is non-empty ends with that part's last character. */
  lemma {:induction false} JoinLastChar(parts: seq<string>, sep: char)
    requires |parts| > 0 && |parts[|parts| - 1]| > 0
    ensures var j, l := Join(parts, sep), parts[|parts| - 1]; |j| > 0 && j[|j| - 1] == l[|l| - 1]
  {
    if |parts| > 1 {
      JoinLastChar(parts[1..], sep);
    }
  }

  /** The seeds section is the placeholder exactly when there are no seeds:
      every seed line ends in a digit of its quantity, the placeholder does not. */
  lemma SeedsFieldPlaceholder(seeds: seq<Item>, emojis: seq<Emoji>)
    ensures SeedsField(seeds, emojis) == SeedsPlaceholder <==> |seeds| == 0
  {
    var lines := SeedLines(seeds, emojis);
    if |seeds| > 0 {
      var last := lines[|lines| - 1];
      var q := Decimal(seeds[|seeds| - 1].quantity);
      assert last[|last| - 1] == q[|q| - 1];
      JoinLastChar(lines, '\n');
      var text := Join(lines, '\n');
      assert IsDigit(text[|text| - 1]);
      assert text != SeedsPlaceholder by {
        assert SeedsPlaceholder[|SeedsPlaceholder| - 1] == 'e';
      }
    }
  }

  predicate NoNewline(s: string) {
    '\n' !in s
  }

  lemma DecimalNoNewline(n: nat)
    ensures NoNewline(Decimal(n))
  {
  }

  /** Emoji names and ids free of line breaks. */
  predicate SingleLineEmojis(emojis: seq<Emoji>) {
    forall k :: 0 <= k < |emojis| ==> NoNewline(emojis[k].name) && NoNewline(emojis[k].id)
  }

  /** Item names and emojis free of line breaks. */
  predicate SingleLineNames(items: seq<Item>, emojis: seq<Emoji>) {
    && (forall i :: 0 <= i < |items| ==> NoNewline(items[i].name))
    && SingleLineEmojis(emojis)
  }

  lemma EmojiTagNoNewline(e: Emoji, emojis: seq<Emoji>, key: string)
    requires SingleLineEmojis(emojis)
    requires FindEmoji(emojis, key) == Some(e)
    ensures NoNewline(EmojiTag(e))
  {
  }

  /** Splitting the seeds section at newlines gives back one line per seed,
      in input order, when no name contains a newline. */
  lemma SeedsFieldLines(seeds: seq<Item>, emojis: seq<Emoji>)
    requires |seeds| > 0
    requires SingleLineNames(seeds, emojis)
    ensures Split(SeedsField(seeds, emojis), '\n') == SeedLines(seeds, emojis)
  {
    var lines := SeedLines(seeds, emojis);
    forall k | 0 <= k < |lines| ensures NoNewline(lines[k]) {
      DecimalNoNewline(seeds[k].quantity);
      var f := FindEmoji(emojis, SeedEmojiKey(seeds[k].name));
      if f.Some? {
        EmojiTagNoNewline(f.value, emojis, SeedEmojiKey(seeds[k].name));
      }
    }
    SeedsFieldPlaceholder(seeds, emojis);
    SplitJoin(lines, '\n');
  }

  /** The gear section is every gear line, each followed by a newline. */
  lemma {:induction false} GearTextIsTerminatedLines(gear: seq<Item>, emojis: seq<Emoji>)
    ensures GearText(gear, emojis) == Join(GearBodies(gear, emojis) + [""], '\n')
  {
    if |gear| > 0 {
      GearTextIsTerminatedLines(gear[1..], emojis);
      var b := GearBodies(gear, emojis);
      assert b[1..] == GearBodies(gear[1..], emojis);
      assert (b + [""])[1..] == b[1..] + [""];
    }
  }

  /** The gear section is the placeholder exactly when there is no gear: every
      gear line ends in a newline, the placeholder does not. */
  lemma GearFieldPlaceholder(gear: seq<Item>, emojis: seq<Emoji>)
    ensures GearField(gear, emojis) == GearPlaceholder <==> |gear| == 0
  {
    if |gear| > 0 {
      var text := GearText(gear, emojis);
      GearTextIsTerminatedLines(gear, emojis);
      var b := GearBodies(gear, emojis);
      assert Join(b + [""], '\n') == Join(b, '\n') + "\n" by {
        JoinAppendEmpty(b, '\n');
      }
      assert text[|text| - 1] == '\n';
      assert GearPlaceholder[|GearPlaceholder| - 1] == 'e';
    }
  }

  lemma {:induction false} JoinAppendEmpty(parts: seq<string>, sep: char)
    requires |parts| > 0
    ensures Join(parts + [""], sep) == Join(parts, sep) + [sep]
  {
    if |parts| > 1 {
      JoinAppendEmpty(parts[1..], sep);
      assert (parts + [""])[1..] == parts[1..] + [""];
    } else {
      assert (parts + [""])[1..] == [""];
    }
  }

  /** Splitting the gear section at newlines gives one line per gear item, in
      input order, and the empty remainder after the final newline. */
  lemma GearTextLines(gear: seq<Item>, emojis: seq<Emoji>)
    requires SingleLineNames(gear, emojis)
    ensures Split(GearText(gear, emojis), '\n') == GearBodies(gear, emojis) + [""]
  {
    var parts := GearBodies(gear, emojis) + [""];
    forall k | 0 <= k < |parts| ensures NoNewline(parts[k]) {
      if k < |gear| {
        DecimalNoNewline(gear[k].quantity);
        var f := FindEmoji(emojis, GearEmojiKey(gear[k].name));
        if f.Some? {
          EmojiTagNoNewline(f.value, emojis, GearEmojiKey(gear[k].name));
        }
      }
    }
    GearTextIsTerminatedLines(gear, emojis);
    SplitJoin(parts, '\n');
  }

  /** The two lookups agree on blank-free names. */
  lemma SameKeyWithoutBlanks(name: string)
    requires !HasSpace(name)
    ensures SeedEmojiKey(name) == GearEmojiKey(name)
  {
    LowerKeepsSpaces(name);
    UnderscoreSpacesIdentity(Lower(name));
  }

  /** A gear item whose name has a blank never gets an emoji from a guild whose
      emoji names are blank-free, because its key keeps the blank. */
  lemma GearWithBlankGetsNoEmoji(g: Item, emojis: seq<Emoji>)
    requires HasSpace(g.name)
    requires forall k :: 0 <= k < |emojis| ==> !HasSpace(emojis[k].name)
    ensures FindEmoji(emojis, GearEmojiKey(g.name)).None?
  {
    LowerKeepsSpaces(g.name);
    forall e | e in emojis ensures Lower(e.name) != GearEmojiKey(g.name) {
      LowerKeepsSpaces(e.name);
    }
  }

  /** The same two-word name gives different keys in the two categories. */
  lemma OrangeTulipKeys()
    ensures SeedEmojiKey("Orange Tulip") == "orange_tulip"
    ensures GearEmojiKey("Orange Tulip") == "orange tulip"
  {
    LowerOrangeTulip();
    BlankFreeWords();
    UnderscoreAroundBlank("orange", "tulip");
    assert "orange" + " " + "tulip" == "orange tulip";
    assert "orange" + "_" + "tulip" == "orange_tulip";
  }

  lemma LowerOrangeTulip()
    ensures Lower("Orange Tulip") == "orange tulip"
  {
    var low := "orange tulip";
    forall i | 0 <= i < 12 ensures Lower("Orange Tulip")[i] == low[i] {
      assert Lower("Orange Tulip")[i] == LowerChar("Orange Tulip"[i]);
    }
  }

  lemma BlankFreeWords()
    ensures !HasSpace("orange") && !HasSpace("tulip")
  {
    forall i | 0 <= i < 6 ensures !IsSpace("orange"[i]) {}
    forall i | 0 <= i < 5 ensures !IsSpace("tulip"[i]) {}
  }

  /** One blank between two blank-free words becomes one `_`. */
  lemma UnderscoreAroundBlank(a: string, b: string)
    requires !HasSpace(a) && !HasSpace(b)
    ensures UnderscoreSpaces(a + " " + b) == a + "_" + b
  {
    if |b| > 0 { assert !IsSpace(b[0]); }
    UnderscoreRun(a, " ", b);
    UnderscoreSpacesIdentity(b);
  }
}
