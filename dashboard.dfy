/**
 * The dashboard: the welcome line and stat cards of the signed-in user (or
 * of the first fixture user), the wallet bars, the three most recent posts,
 * the user's guilds and the suggested connections.
 *
 * The fixtures `mockGuilds`, `mockUsers` and `mockPosts` are the inputs
 * `catalog`, `users` and `posts`.
 */
module Dashboard {
  import opened Wrappers
  import opened Data
  import CurrencySlice
  import Wallet
  import Guilds
  import Seqs

  /** A stat card's value: a literal of the page, or a number taken from the user. */
  datatype StatValue = Literal(text: string) | Count(n: int)

  datatype Stat = Stat(title: string, value: StatValue)

  /** The four stat cards; only "Trees Planted" and "Active Guilds" depend on the user. */
  function Stats(user: User): (r: seq<Stat>)
    ensures |r| == 4
    ensures r[1].title == "Trees Planted" && r[1].value == Count(user.impact.treesPlanted)
    ensures r[2].title == "Active Guilds" && r[2].value == Count(|user.guilds|)
  {
    [Stat("Impact Score", Literal("2,450")),
     Stat("Trees Planted", Count(user.impact.treesPlanted)),
     Stat("Active Guilds", Count(|user.guilds|)),
     Stat("Courses Completed", Literal("12"))]
  }

  /** Users with the same tree count and the same number of guilds get the same cards. */
  lemma StatsDependOnlyOnTwoFields(a: User, b: User)
    requires a.impact.treesPlanted == b.impact.treesPlanted && |a.guilds| == |b.guilds|
    ensures Stats(a) == Stats(b)
  {
  }

  const BarCoins: seq<CurrencySlice.Coin> := [CurrencySlice.V, CurrencySlice.Y, CurrencySlice.Q]

  /** The wallet overview's bars, one per currency in the order V, Y, Q. */
  function WalletBars(user: User): seq<real> {
    seq(3, i requires 0 <= i < 3 => Wallet.PercentOfMax(CurrencySlice.BalanceOf(user.currencies, BarCoins[i])))
  }

  /**
   * Each bar is its balance's percentage of 5000, unclamped, the same value
   * the wallet page draws; it is within [0, 100] exactly for a balance
   * within [0, 5000].
   */
  lemma WalletBarsFacts(user: User)
    ensures |WalletBars(user)| == 3
    ensures forall i :: 0 <= i < 3 ==>
      WalletBars(user)[i] * 5000.0 == CurrencySlice.BalanceOf(user.currencies, BarCoins[i]) * 100.0
    ensures forall i :: 0 <= i < 3 ==>
      (0.0 <= WalletBars(user)[i] <= 100.0 <==> 0.0 <= CurrencySlice.BalanceOf(user.currencies, BarCoins[i]) <= 5000.0)
  {
  }

  /** "Recent Activity": `posts.slice(0, 3)`. */
  function RecentActivity(posts: seq<Post>): (r: seq<Post>)
    ensures |r| <= 3 && |r| <= |posts| && r == posts[..|r|]
    ensures |posts| >= 3 ==> |r| == 3
    ensures |posts| < 3 ==> r == posts
  {
    Seqs.Prefix(posts, 3)
  }

  /** "Your Guilds": the catalogue guilds whose name is among the user's guilds. */
  function YourGuilds(catalog: seq<Guild>, user: User): seq<Guild> {
    Seqs.Filter(catalog, (g: Guild) => g.name in user.guilds)
  }

  /**
   * "Your Guilds" lists exactly the catalogue guilds named in the user's
   * guild list, in catalogue order, and is the guild directory's view with
   * an empty search, every category and "my guilds only" on.
   */
  lemma YourGuildsFacts(catalog: seq<Guild>, user: User)
    ensures forall g :: g in YourGuilds(catalog, user) <==> g in catalog && g.name in user.guilds
    ensures Seqs.IsSubsequence(YourGuilds(catalog, user), catalog)
    ensures YourGuilds(catalog, user) ==
      Guilds.FilteredGuilds(catalog, user.guilds, Guilds.GuildFilter("", Guilds.AllCategory, true))
  {
    Seqs.FilterIsSubsequence(catalog, (g: Guild) => g.name in user.guilds);
    var f := Guilds.GuildFilter("", Guilds.AllCategory, true);
    forall i | 0 <= i < |catalog| ensures Guilds.MatchesSearch(catalog[i], "") {
      Guilds.SearchFacts(catalog[i], "");
    }
    Seqs.FilterCongruent(catalog, (g: Guild) => g.name in user.guilds, (g: Guild) => Guilds.Keep(f, user.guilds, g));
  }

  /** "Suggested Connections": every user but the signed-in one. */
  function Suggested(users: seq<User>, user: User): seq<User> {
    Seqs.Filter(users, (u: User) => u.id != user.id)
  }

  /** The guild chips of a suggested user: the first two of the user's guilds. */
  function SuggestedChips(u: User): (r: seq<string>)
    ensures |r| <= 2 && |r| <= |u.guilds| && r == u.guilds[..|r|]
    ensures |u.guilds| <= 2 ==> r == u.guilds
  {
    Seqs.Prefix(u.guilds, 2)
  }

  /**
   * The suggestions are the other users, in order: nobody with the signed-in
   * user's id, everybody else; when no fixture has that id, all of them.
   */
  lemma SuggestedFacts(users: seq<User>, user: User)
    ensures forall u :: u in Suggested(users, user) <==> u in users && u.id != user.id
    ensures Seqs.IsSubsequence(Suggested(users, user), users)
    ensures (forall i :: 0 <= i < |users| ==> users[i].id != user.id) ==> Suggested(users, user) == users
  {
    Seqs.FilterIsSubsequence(users, (u: User) => u.id != user.id);
    if forall i :: 0 <= i < |users| ==> users[i].id != user.id {
      Seqs.FilterKeepsAll(users, (u: User) => u.id != user.id);
    }
  }

  /** Everything the dashboard shows. */
  datatype DashboardView = DashboardView(
    welcomeName: string,
    stats: seq<Stat>,
    bars: seq<real>,
    recent: seq<Post>,
    yourGuilds: seq<Guild>,
    suggested: seq<User>)

  function View(auth: Option<User>, catalog: seq<Guild>, users: seq<User>, posts: seq<Post>, firstFixture: User): DashboardView {
    var user := SignedInOr(auth, firstFixture);
    DashboardView(user.fullName, Stats(user), WalletBars(user), RecentActivity(posts),
      YourGuilds(catalog, user), Suggested(users, user))
  }

  /**
   * The dashboard describes the signed-in user, or the first fixture user
   * when nobody is signed in; the recent posts do not depend on the user.
   */
  lemma ViewFacts(auth: Option<User>, catalog: seq<Guild>, users: seq<User>, posts: seq<Post>, firstFixture: User)
    ensures var v := View(auth, catalog, users, posts, firstFixture);
      var user := if auth.Some? then auth.value else firstFixture;
      && v.welcomeName == user.fullName
      && v.stats[1].value == Count(user.impact.treesPlanted)
      && v.stats[2].value == Count(|user.guilds|)
      && (forall g :: g in v.yourGuilds <==> g in catalog && g.name in user.guilds)
      && (forall u :: u in v.suggested <==> u in users && u.id != user.id)
    ensures View(auth, catalog, users, posts, firstFixture).recent == View(None, catalog, users, posts, firstFixture).recent
  {
    var user := SignedInOr(auth, firstFixture);
    YourGuildsFacts(catalog, user);
    SuggestedFacts(users, user);
  }
}
