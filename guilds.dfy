/**
 * The guild directory page: the search/category/"my guilds" filter, the
 * membership label on each card and the tag chips.
 *
 * The signed-in user is the first fixture user; the model takes the names
 * of that user's guilds as the input `myGuilds`.
 */
module Guilds {
  import opened Wrappers
  import opened Data
  import Seqs
  import Text

  const AllCategory := "all"

  const CategoryValues: seq<string> := [AllCategory, "Agriculture", "Community", "Environment", "Wellness", "Education"]

  datatype GuildFilter = GuildFilter(query: string, category: string, myGuildsOnly: bool)

  const DefaultFilter := GuildFilter("", AllCategory, false)

  /** The lowercased query occurs in the lowercased name, the description or one of the tags. */
  predicate MatchesSearch(g: Guild, query: string) {
    var q := Text.Lower(query);
    Text.Contains(Text.Lower(g.name), q) || Text.Contains(Text.Lower(g.description), q) ||
    exists i :: 0 <= i < |g.tags| && Text.Contains(Text.Lower(g.tags[i]), q)
  }

  predicate Keep(f: GuildFilter, myGuilds: seq<string>, g: Guild) {
    MatchesSearch(g, f.query) && (f.category == AllCategory || g.category == f.category) &&
    (!f.myGuildsOnly || g.name in myGuilds)
  }

  function FilteredGuilds(catalog: seq<Guild>, myGuilds: seq<string>, f: GuildFilter): seq<Guild> {
    Seqs.Filter(catalog, g => Keep(f, myGuilds, g))
  }

  /**
   * A guild is listed exactly when it is in the catalogue, matches the
   * search, is in the chosen category (or "all"), and is one of the user's
   * guilds whenever "my guilds only" is on; the list keeps the catalogue's
   * order.
   */
  lemma FilteredGuildsFacts(catalog: seq<Guild>, myGuilds: seq<string>, f: GuildFilter)
    ensures forall g :: g in FilteredGuilds(catalog, myGuilds, f) <==>
      && g in catalog
      && MatchesSearch(g, f.query)
      && (f.category == AllCategory || g.category == f.category)
      && (f.myGuildsOnly ==> g.name in myGuilds)
    ensures Seqs.IsSubsequence(FilteredGuilds(catalog, myGuilds, f), catalog)
  {
    Seqs.FilterIsSubsequence(catalog, g => Keep(f, myGuilds, g));
  }

  /** The search matches a guild by any of its three fields, whatever the letter case of the query. */
  lemma SearchFacts(g: Guild, query: string)
    ensures Text.Contains(Text.Lower(g.name), Text.Lower(query)) ==> MatchesSearch(g, query)
    ensures MatchesSearch(g, query) <==> MatchesSearch(g, Text.Lower(query))
    ensures MatchesSearch(g, "")
  {
    Text.ContainsEmpty(Text.Lower(g.name));
    LowerIdempotent(query);
  }

  lemma {:induction false} LowerIdempotent(s: string)
    ensures Text.Lower(Text.Lower(s)) == Text.Lower(s)
  {
    if s != [] {
      LowerIdempotent(s[1..]);
      assert Text.Lower(s)[1..] == Text.Lower(s[1..]);
    }
  }

  /** The page's starting state lists the whole catalogue, in order. */
  lemma DefaultFilterShowsAll(catalog: seq<Guild>, myGuilds: seq<string>)
    ensures FilteredGuilds(catalog, myGuilds, DefaultFilter) == catalog
  {
    forall i | 0 <= i < |catalog| ensures Keep(DefaultFilter, myGuilds, catalog[i]) {
      Text.ContainsEmpty(Text.Lower(catalog[i].name));
    }
    Seqs.FilterKeepsAll(catalog, g => Keep(DefaultFilter, myGuilds, g));
  }

  /** The card's button reads "Member" exactly for the user's guilds, matched by name. */
  function MemberLabel(myGuilds: seq<string>, g: Guild): (text: string)
    ensures text == "Member" <==> g.name in myGuilds
    ensures text != "Member" ==> text == "Join Guild"
  {
    if g.name in myGuilds then "Member" else "Join Guild"
  }

  /** The chips under a card: the first tags, and the "+n" count of the rest when there is a rest. */
  datatype TagChips = TagChips(shown: seq<string>, more: Option<int>)

  function Chips(tags: seq<string>): (c: TagChips)
    ensures |c.shown| <= 3 && |c.shown| <= |tags| && c.shown == tags[..|c.shown|]
    ensures c.more.Some? <==> |tags| > 3
    ensures c.more.Some? ==> |c.shown| == 3 && |c.shown| + c.more.value == |tags|
    ensures c.more.None? ==> c.shown == tags
  {
    TagChips(Seqs.Prefix(tags, 3), if |tags| > 3 then Some(|tags| - 3) else None)
  }
}
