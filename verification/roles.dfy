/** Which roles one stock snapshot pings (bot.js lines 98-122): per-category
    exclusion, lookup in the role table, an insertion-ordered set of role ids
    (seeds first, then gear), the guild's mentionable filter, and the
    space-separated mention string. */
module Roles {
  import opened Options
  import opened Strings
  import opened Tables

  /** An item is excluded when its lower-cased name is on its category's list. */
  predicate Excluded(item: Item, excluded: seq<string>) {
    Lower(item.name) in excluded
  }

  /** The items of one category that may ping, in input order. */
  function Pingable(items: seq<Item>, excluded: seq<string>): (r: seq<Item>)
    ensures |r| <= |items|
  {
    if |items| == 0 then []
    else (if Excluded(items[0], excluded) then [] else [items[0]]) + Pingable(items[1..], excluded)
  }

  /** Filtering keeps exactly the items that are not excluded. */
  lemma {:induction false} PingableMembers(items: seq<Item>, excluded: seq<string>)
    ensures forall x :: x in Pingable(items, excluded) <==> x in items && !Excluded(x, excluded)
  {
    if |items| > 0 {
      PingableMembers(items[1..], excluded);
      assert forall x :: x in items <==> x == items[0] || x in items[1..];
    }
  }

  lemma {:induction false} PingableAppend(a: seq<Item>, b: seq<Item>, excluded: seq<string>)
    ensures Pingable(a + b, excluded) == Pingable(a, excluded) + Pingable(b, excluded)
  {
    if |a| > 0 {
      assert (a + b)[1..] == a[1..] + b;
      PingableAppend(a[1..], b, excluded);
    } else {
      assert a + b == b;
    }
  }

  /** The role an item asks for: its lower-cased name must be a key of the
      table whose value is a non-empty id (JavaScript skips a falsy id). */
  function RoleOf(item: Item, table: map<string, string>): Option<string> {
    var key := Lower(item.name);
    if key in table && table[key] != "" then Some(table[key]) else None
  }

  /** The role ids the items ask for, in item order, repetitions kept. */
  function MappedRoles(items: seq<Item>, table: map<string, string>): (r: seq<string>)
    ensures forall id :: id in r <==> exists it :: it in items && RoleOf(it, table) == Some(id)
  {
    if |items| == 0 then []
    else
      var rest := MappedRoles(items[1..], table);
      assert forall it :: it in items <==> it == items[0] || it in items[1..];
      match RoleOf(items[0], table)
      case Some(id) => [id] + rest
      case None => rest
  }

  lemma {:induction false} MappedRolesAppend(a: seq<Item>, b: seq<Item>, table: map<string, string>)
    ensures MappedRoles(a + b, table) == MappedRoles(a, table) + MappedRoles(b, table)
  {
    if |a| > 0 {
      assert (a + b)[1..] == a[1..] + b;
      MappedRolesAppend(a[1..], b, table);
    } else {
      assert a + b == b;
    }
  }

  predicate NoDup(xs: seq<string>) {
    forall i, j :: 0 <= i < j < |xs| ==> xs[i] != xs[j]
  }

  function Elems(xs: seq<string>): set<string> {
    set x | x in xs
  }

  /** `set.add(id)` on a JavaScript Set kept as an insertion-ordered sequence. */
  function AddIfAbsent(acc: seq<string>, id: string): (r: seq<string>)
    ensures NoDup(acc) ==> NoDup(r)
    ensures Elems(r) == Elems(acc) + {id}
    ensures |acc| <= |r| && r[..|acc|] == acc
  {
    if id in acc then acc else acc + [id]
  }

  /** The loop of lines 105-108 (or 110-113) over one category, starting from
      the set built so far. */
  function CollectRoles(acc: seq<string>, items: seq<Item>, table: map<string, string>): (r: seq<string>)
    ensures NoDup(acc) ==> NoDup(r)
    ensures |acc| <= |r| && r[..|acc|] == acc
    decreases |items|
  {
    if |items| == 0 then acc
    else
      var acc' := match RoleOf(items[0], table)
        case Some(id) => AddIfAbsent(acc, id)
        case None => acc;
      CollectRoles(acc', items[1..], table)
  }

  /** `rolesToPingSet` of lines 103-113. */
  function RolesToPing(cfg: Config, seeds: seq<Item>, gear: seq<Item>): (r: seq<string>)
    ensures NoDup(r)
  {
    var afterSeeds := CollectRoles([], Pingable(seeds, cfg.excludedSeeds), cfg.roleIds);
    CollectRoles(afterSeeds, Pingable(gear, cfg.excludedGear), cfg.roleIds)
  }

  // ----- An independent description of "first occurrences, in order" -----

  function Without(xs: seq<string>, s: set<string>): (r: seq<string>)
    ensures |r| <= |xs|
    ensures forall x :: x in r <==> x in xs && x !in s
  {
    if |xs| == 0 then []
    else (if xs[0] in s then [] else [xs[0]]) + Without(xs[1..], s)
  }

  lemma {:induction false} WithoutWithout(xs: seq<string>, a: set<string>, b: set<string>)
    ensures Without(Without(xs, a), b) == Without(xs, a + b)
  {
    if |xs| > 0 {
      WithoutWithout(xs[1..], a, b);
      var w := Without(xs[1..], a);
      if xs[0] in a {
        assert Without(xs, a) == w;
      } else {
        assert Without(xs, a) == [xs[0]] + w;
        assert ([xs[0]] + w)[1..] == w;
      }
    }
  }

  lemma {:induction false} WithoutNothing(xs: seq<string>)
    ensures Without(xs, {}) == xs
  {
    if |xs| > 0 {
      WithoutNothing(xs[1..]);
    }
  }

  /** Each value of `xs` once, at the place it first appears. */
  function FirstOccurrences(xs: seq<string>): (r: seq<string>)
    ensures NoDup(r)
    ensures forall x :: x in r <==> x in xs
    decreases |xs|
  {
    if |xs| == 0 then []
    else [xs[0]] + FirstOccurrences(Without(xs[1..], {xs[0]}))
  }

  /** The accumulating loop appends, to what it already holds, the first
      occurrences of the new ids it meets. */
  lemma {:induction false} CollectRolesAppendsFirstOccurrences(
    acc: seq<string>, items: seq<Item>, table: map<string, string>)
    ensures CollectRoles(acc, items, table)
            == acc + FirstOccurrences(Without(MappedRoles(items, table), Elems(acc)))
    decreases |items|, 2
  {
    if |items| > 0 {
      var r := RoleOf(items[0], table);
      if r.Some? && r.value !in acc {
        CollectNewRole(acc, r.value, items, table);
      } else {
        CollectSkipped(acc, items, table);
      }
    }
  }

  /** The step of the loop that meets no id, or an id the set holds. */
  lemma {:induction false} CollectSkipped(acc: seq<string>, items: seq<Item>, table: map<string, string>)
    requires |items| > 0
    requires RoleOf(items[0], table).None? || RoleOf(items[0], table).value in acc
    ensures CollectRoles(acc, items, table)
            == acc + FirstOccurrences(Without(MappedRoles(items, table), Elems(acc)))
    decreases |items|, 0
  {
    var m := MappedRoles(items[1..], table);
    assert CollectRoles(acc, items, table) == CollectRoles(acc, items[1..], table);
    CollectRolesAppendsFirstOccurrences(acc, items[1..], table);
    match RoleOf(items[0], table)
    case None =>
      assert MappedRoles(items, table) == m;
    case Some(x) =>
      assert MappedRoles(items, table) == [x] + m;
      SkipHeld(acc, x, m);
  }

  /** The step of the loop that meets an id the set does not hold yet. */
  lemma {:induction false} CollectNewRole(
    acc: seq<string>, x: string, items: seq<Item>, table: map<string, string>)
    requires x !in acc
    requires |items| > 0 && RoleOf(items[0], table) == Some(x)
    ensures CollectRoles(acc, items, table)
            == acc + FirstOccurrences(Without(MappedRoles(items, table), Elems(acc)))
    decreases |items|, 1
  {
    var m := MappedRoles(items[1..], table);
    assert MappedRoles(items, table) == [x] + m;
    CollectAppended(acc, x, items, table);
    AppendNew(x, m, Elems(acc));
    ConcatAssoc(acc, [x], FirstOccurrences(Without(m, Elems(acc) + {x})));
  }

  lemma ConcatAssoc(a: seq<string>, b: seq<string>, c: seq<string>)
    ensures a + b + c == a + (b + c)
  {
  }

  lemma {:induction false} CollectAppended(
    acc: seq<string>, x: string, items: seq<Item>, table: map<string, string>)
    requires x !in acc
    requires |items| > 0 && RoleOf(items[0], table) == Some(x)
    ensures CollectRoles(acc, items, table)
            == acc + [x] + FirstOccurrences(Without(MappedRoles(items[1..], table), Elems(acc) + {x}))
    decreases |items|, 0
  {
    var acc' := acc + [x];
    assert CollectRoles(acc, items, table) == CollectRoles(acc', items[1..], table);
    CollectRolesAppendsFirstOccurrences(acc', items[1..], table);
    ElemsSnoc(acc, x);
  }

  /** An id the set already holds contributes nothing new. */
  lemma SkipHeld(acc: seq<string>, x: string, m: seq<string>)
    requires x in acc
    ensures Without([x] + m, Elems(acc)) == Without(m, Elems(acc))
  {
    assert ([x] + m)[1..] == m;
  }

  /** An id the set does not hold yet is its next first occurrence. */
  lemma AppendNew(x: string, m: seq<string>, held: set<string>)
    requires x !in held
    ensures FirstOccurrences(Without([x] + m, held)) == [x] + FirstOccurrences(Without(m, held + {x}))
  {
    WithoutCons(x, m, held);
    WithoutWithout(m, held, {x});
    FirstOccurrencesCons(x, Without(m, held));
  }

  lemma ElemsSnoc(acc: seq<string>, x: string)
    ensures Elems(acc + [x]) == Elems(acc) + {x}
  {
  }

  lemma WithoutCons(x: string, m: seq<string>, held: set<string>)
    requires x !in held
    ensures Without([x] + m, held) == [x] + Without(m, held)
  {
    assert ([x] + m)[1..] == m;
  }

  lemma FirstOccurrencesCons(x: string, w: seq<string>)
    ensures FirstOccurrences([x] + w) == [x] + FirstOccurrences(Without(w, {x}))
  {
    assert ([x] + w)[1..] == w;
  }

  /** The role ids the non-excluded seeds ask for, in order, repetitions kept. */
  function SeedRoles(cfg: Config, seeds: seq<Item>): seq<string> {
    MappedRoles(Pingable(seeds, cfg.excludedSeeds), cfg.roleIds)
  }

  /** The role ids the non-excluded gear asks for, in order, repetitions kept. */
  function GearRoles(cfg: Config, gear: seq<Item>): seq<string> {
    MappedRoles(Pingable(gear, cfg.excludedGear), cfg.roleIds)
  }

  /** The ping set lists the seed roles in first-occurrence order, followed by
      the gear roles no seed already asked for, in first-occurrence order. */
  lemma RolesToPingOrder(cfg: Config, seeds: seq<Item>, gear: seq<Item>)
    ensures RolesToPing(cfg, seeds, gear)
            == FirstOccurrences(SeedRoles(cfg, seeds))
               + FirstOccurrences(Without(GearRoles(cfg, gear), Elems(SeedRoles(cfg, seeds))))
  {
    var sr := SeedRoles(cfg, seeds);
    var afterSeeds := CollectRoles([], Pingable(seeds, cfg.excludedSeeds), cfg.roleIds);
    assert afterSeeds == FirstOccurrences(sr) by {
      CollectRolesAppendsFirstOccurrences([], Pingable(seeds, cfg.excludedSeeds), cfg.roleIds);
      assert Elems([]) == {};
      WithoutNothing(sr);
    }
    assert Elems(afterSeeds) == Elems(sr);
    CollectRolesAppendsFirstOccurrences(afterSeeds, Pingable(gear, cfg.excludedGear), cfg.roleIds);
  }

  lemma NoDupAppend(a: seq<string>, b: seq<string>)
    requires NoDup(a) && NoDup(b)
    requires forall x :: x in a ==> x !in b
    ensures NoDup(a + b)
  {
    forall i, j | 0 <= i < j < |a + b| ensures (a + b)[i] != (a + b)[j] {
      if j >= |a| && i < |a| {
        assert (a + b)[i] in a;
        assert (a + b)[j] == b[j - |a|];
      }
    }
  }

  /** An id is pinged (before the guild filter) exactly when some non-excluded
      seed or some non-excluded gear item maps to it, and it is listed once. */
  lemma {:induction false} RolesToPingContents(cfg: Config, seeds: seq<Item>, gear: seq<Item>)
    ensures NoDup(RolesToPing(cfg, seeds, gear))
    ensures forall id :: id in RolesToPing(cfg, seeds, gear) <==>
      || (exists s :: s in seeds && !Excluded(s, cfg.excludedSeeds) && RoleOf(s, cfg.roleIds) == Some(id))
      || (exists g :: g in gear && !Excluded(g, cfg.excludedGear) && RoleOf(g, cfg.roleIds) == Some(id))
  {
    RolesToPingOrder(cfg, seeds, gear);
    var sr, gr := SeedRoles(cfg, seeds), GearRoles(cfg, gear);
    var a := FirstOccurrences(sr);
    var b := FirstOccurrences(Without(gr, Elems(sr)));
    NoDupAppend(a, b);
    assert forall x :: x in a + b <==> x in sr || x in gr;
    MappedRolesOfPingable(cfg.roleIds, seeds, cfg.excludedSeeds);
    MappedRolesOfPingable(cfg.roleIds, gear, cfg.excludedGear);
  }

  lemma {:induction false} MappedRolesOfPingable(table: map<string, string>, items: seq<Item>, excluded: seq<string>)
    ensures forall id :: id in MappedRoles(Pingable(items, excluded), table) <==>
      exists it :: it in items && !Excluded(it, excluded) && RoleOf(it, table) == Some(id)
  {
    PingableMembers(items, excluded);
  }

  /** An excluded seed never contributes, wherever it stands in the list and
      whatever the table maps its name to. */
  lemma ExcludedSeedIgnored(cfg: Config, before: seq<Item>, e: Item, after: seq<Item>, gear: seq<Item>)
    requires Excluded(e, cfg.excludedSeeds)
    ensures RolesToPing(cfg, before + [e] + after, gear) == RolesToPing(cfg, before + after, gear)
  {
    PingableSkips(before, e, after, cfg.excludedSeeds);
  }

  /** An excluded gear item never contributes either. */
  lemma ExcludedGearIgnored(cfg: Config, seeds: seq<Item>, before: seq<Item>, e: Item, after: seq<Item>)
    requires Excluded(e, cfg.excludedGear)
    ensures RolesToPing(cfg, seeds, before + [e] + after) == RolesToPing(cfg, seeds, before + after)
  {
    PingableSkips(before, e, after, cfg.excludedGear);
  }

  lemma {:induction false} PingableSkips(before: seq<Item>, e: Item, after: seq<Item>, excluded: seq<string>)
    requires Excluded(e, excluded)
    ensures Pingable(before + [e] + after, excluded) == Pingable(before + after, excluded)
  {
    assert Pingable([e], excluded) == [] by {
      assert Pingable([e][1..], excluded) == [];
    }
    calc {
      Pingable(before + [e] + after, excluded);
      { PingableAppend(before + [e], after, excluded); }
      Pingable(before + [e], excluded) + Pingable(after, excluded);
      { PingableAppend(before, [e], excluded); }
      Pingable(before, excluded) + [] + Pingable(after, excluded);
      { PingableAppend(before, after, excluded); }
      Pingable(before + after, excluded);
    }
  }

  /** A seed the table does not map is skipped silently. */
  lemma {:induction false} UnmappedSeedIgnored(cfg: Config, before: seq<Item>, u: Item, after: seq<Item>, gear: seq<Item>)
    requires RoleOf(u, cfg.roleIds).None?
    ensures RolesToPing(cfg, before + [u] + after, gear) == RolesToPing(cfg, before + after, gear)
  {
    var ex := cfg.excludedSeeds;
    var t := cfg.roleIds;
    PingableAppend(before + [u], after, ex);
    PingableAppend(before, [u], ex);
    PingableAppend(before, after, ex);
    var pb, pu, pa := Pingable(before, ex), Pingable([u], ex), Pingable(after, ex);
    assert MappedRoles(pu, t) == [];
    MappedRolesAppend(pb + pu, pa, t);
    MappedRolesAppend(pb, pu, t);
    MappedRolesAppend(pb, pa, t);
    assert SeedRoles(cfg, before + [u] + after) == SeedRoles(cfg, before + after);
    RolesToPingOrder(cfg, before + [u] + after, gear);
    RolesToPingOrder(cfg, before + after, gear);
  }

  /** With the bot's own tables: a tomato seed is excluded although it is
      mapped, while a gear item called "Tomato" is not excluded, because the
      exclusion lists are per category. */
  lemma TomatoPingsOnlyAsGear()
    ensures RolesToPing(BotConfig, [Item("Tomato", 1)], []) == []
    ensures RolesToPing(BotConfig, [], [Item("Tomato", 1)]) == ["ROLE_ID_TOMATO"]
  {
    var tomato := Item("Tomato", 1);
    assert Lower("Tomato") == "tomato";
    assert Pingable([tomato], ExcludedSeeds) == [] by {
      assert Excluded(tomato, ExcludedSeeds);
      assert Pingable([tomato][1..], ExcludedSeeds) == [];
    }
    assert Pingable([tomato], ExcludedGear) == [tomato] by {
      assert !Excluded(tomato, ExcludedGear);
      assert Pingable([tomato][1..], ExcludedGear) == [];
    }
    assert RoleOf(tomato, ItemRoleIds) == Some("ROLE_ID_TOMATO");
    assert CollectRoles([], [tomato], ItemRoleIds) == ["ROLE_ID_TOMATO"] by {
      assert [tomato][1..] == [];
    }
  }

  // ----- The guild filter and the mention string (lines 116-122) -----

  /** A role is pinged only if the guild's role cache holds it and it is
      mentionable. */
  predicate Mentionable(guild: Guild, id: string) {
    id in guild.roles && guild.roles[id]
  }

  /** `a` occurs in `b` in order, possibly with gaps. */
  predicate Subsequence(a: seq<string>, b: seq<string>) {
    |a| == 0 || (|b| > 0 && if a[0] == b[0] then Subsequence(a[1..], b[1..]) else Subsequence(a, b[1..]))
  }

  /** `validRoles` of lines 116-118. */
  function MentionableRoles(ids: seq<string>, guild: Guild): (r: seq<string>)
    ensures forall x :: x in r <==> x in ids && Mentionable(guild, x)
    ensures Subsequence(r, ids)
    ensures NoDup(ids) ==> NoDup(r)
  {
    if |ids| == 0 then []
    else
      var rest := MentionableRoles(ids[1..], guild);
      assert forall x :: x in ids <==> x == ids[0] || x in ids[1..];
      if Mentionable(guild, ids[0]) then
        assert ([ids[0]] + rest)[1..] == rest;
        [ids[0]] + rest
      else
        SubsequenceSkip(rest, ids);
        rest
  }

  lemma {:induction false} SubsequenceSkip(a: seq<string>, b: seq<string>)
    requires |b| > 0 && Subsequence(a, b[1..])
    ensures Subsequence(a, b)
    decreases |b|, 0
  {
    if |a| > 0 && a[0] == b[0] {
      SubsequenceDropHead(a, b[1..]);
    }
  }

  lemma {:induction false} SubsequenceDropHead(a: seq<string>, c: seq<string>)
    requires |a| > 0 && Subsequence(a, c)
    ensures Subsequence(a[1..], c)
    decreases |c|, 1
  {
    if a[0] == c[0] {
      SubsequenceSkip(a[1..], c);
    } else {
      SubsequenceDropHead(a, c[1..]);
      SubsequenceSkip(a[1..], c);
    }
  }

  /** `<@&id>`, the Discord mention of a role. */
  function Mention(id: string): string {
    "<@&" + id + ">"
  }

  function Mentions(ids: seq<string>): seq<string> {
    seq(|ids|, i requires 0 <= i < |ids| => Mention(ids[i]))
  }

  /** `pingString` of lines 120-122. */
  function PingString(valid: seq<string>): (r: string)
    ensures r == "" <==> |valid| == 0
  {
    var ms := Mentions(valid);
    JoinEmpty(ms, ' ');
    assert |ms| == 1 ==> |ms[0]| >= 4;
    Join(ms, ' ')
  }

  /** Reads one space-separated token back as a role id. */
  function ParseMention(token: string): Option<string> {
    if |token| >= 4 && token[..3] == "<@&" && token[|token| - 1] == '>'
    then Some(token[3..|token| - 1]) else None
  }

  /** Reads space-separated tokens back as role ids; `None` as soon as one
      token is not a mention. */
  function ParseMentions(tokens: seq<string>): Option<seq<string>> {
    if |tokens| == 0 then Some([])
    else match (ParseMention(tokens[0]), ParseMentions(tokens[1..]))
      case (Some(id), Some(ids)) => Some([id] + ids)
      case _ => None
  }

  /** The role ids a mention string names, in order: the empty string names
      none, and any other string must be `<@&id>` mentions joined by single
      spaces, or it is rejected. */
  function MentionedIds(s: string): Option<seq<string>> {
    if s == "" then Some([]) else ParseMentions(Split(s, ' '))
  }

  lemma {:induction false} ParseMentionsOfMentions(ids: seq<string>)
    ensures ParseMentions(Mentions(ids)) == Some(ids)
  {
    if |ids| > 0 {
      var m := Mention(ids[0]);
      assert m[..3] == "<@&" && m[3..|m| - 1] == ids[0];
      assert ParseMention(m) == Some(ids[0]);
      assert Mentions(ids)[0] == m;
      assert Mentions(ids)[1..] == Mentions(ids[1..]);
      ParseMentionsOfMentions(ids[1..]);
      assert ids == [ids[0]] + ids[1..];
    }
  }

  /** Tokens that all read back are exactly the mentions of what they read. */
  lemma {:induction false} ParseMentionsExact(tokens: seq<string>, ids: seq<string>)
    requires ParseMentions(tokens) == Some(ids)
    ensures tokens == Mentions(ids)
  {
    if |tokens| > 0 {
      var t := tokens[0];
      var id := ParseMention(t).value;
      var rest := ParseMentions(tokens[1..]).value;
      assert ids == [id] + rest;
      ParseMentionsExact(tokens[1..], rest);
      assert t == t[..3] + t[3..|t| - 1] + [t[|t| - 1]];
      assert t == Mention(id);
      assert Mentions(ids)[1..] == Mentions(rest);
    }
  }

  /** The mention string names exactly the mentionable roles, in order,
      provided no role id contains a space. */
  lemma PingStringRoundTrip(valid: seq<string>)
    requires forall i :: 0 <= i < |valid| ==> ' ' !in valid[i]
    ensures MentionedIds(PingString(valid)) == Some(valid)
  {
    var ms := Mentions(valid);
    if |valid| > 0 {
      forall k | 0 <= k < |ms| ensures ' ' !in ms[k] {
        assert ms[k] == "<@&" + valid[k] + ">";
      }
      SplitJoin(ms, ' ');
      ParseMentionsOfMentions(valid);
    }
  }

  /** Conversely, a string that reads back at all is the ping string of the
      ids it names, and none of those ids contains a space. */
  lemma PingStringExact(s: string, ids: seq<string>)
    requires MentionedIds(s) == Some(ids)
    ensures PingString(ids) == s
    ensures forall i :: 0 <= i < |ids| ==> ' ' !in ids[i]
  {
    if s != "" {
      var tokens := Split(s, ' ');
      ParseMentionsExact(tokens, ids);
      JoinSplit(s, ' ');
      SplitPartsFree(s, ' ');
      forall i | 0 <= i < |ids| ensures ' ' !in ids[i] {
        assert ' ' !in tokens[i];
        assert tokens[i] == "<@&" + ids[i] + ">";
      }
    }
  }

  /** A doubled blank leaves an empty token, which is not a mention, so a
      string with two blanks in a row is never read as a list of mentions. */
  lemma DoubledBlankRejected(a: string, b: string)
    requires ' ' !in a
    ensures MentionedIds(a + "  " + b).None?
  {
    var s := a + "  " + b;
    assert s == a + [' '] + ([' '] + b);
    SplitAtSeparator(a, ' ', [' '] + b);
    assert [' '] + b == "" + [' '] + b;
    SplitAtSeparator("", ' ', b);
    var tokens := Split(s, ' ');
    assert tokens[1..] == [""] + Split(b, ' ');
    assert ParseMentions(tokens[1..]).None?;
  }
}
