/**
 * The guild page: the guild looked up by the route's id, its managers and
 * voting members resolved to users with a fallback, the guild's posts, the
 * Join/Leave button and the post composer shown to members.
 *
 * The fixtures `mockGuilds`, `mockUsers` and `mockPosts` are the inputs
 * `catalog`, `users` and `posts`; `users[0]` and `users[1]` are the two
 * fallback users, `None` where the list is too short to have them.
 */
module GuildDetail {
  import opened Wrappers
  import opened Data
  import Seqs
  import Text

  /** `mockGuilds.find(g => g.id === guildId)`; an absent route id matches no guild. */
  function FindGuild(catalog: seq<Guild>, guildId: Option<string>): (r: Option<Guild>)
    ensures r.Some? <==> guildId.Some? && exists i :: 0 <= i < |catalog| && catalog[i].id == guildId.value
    ensures r.Some? ==> r.value.id == guildId.value && r.value in catalog
  {
    if guildId.None? then None
    else
      var i := Seqs.IndexOf(catalog, GuildId, guildId.value);
      if i == -1 then None else Some(catalog[i])
  }

  /** `users.find(u => u.id === id) || users[fallback]`. */
  function UserOr(users: seq<User>, id: string, fallback: nat): Option<User> {
    var i := Seqs.IndexOf(users, UserId, id);
    if i != -1 then Some(users[i])
    else if fallback < |users| then Some(users[fallback])
    else None
  }

  /** The ids of a leadership list mapped to users, falling back to `users[fallback]`. */
  function ResolveIds(users: seq<User>, ids: seq<string>, fallback: nat): seq<Option<User>> {
    seq(|ids|, i requires 0 <= i < |ids| => UserOr(users, ids[i], fallback))
  }

  /** `managers`: the guild's manager ids as users, `users[0]` for an unknown id; empty without a guild. */
  function Managers(users: seq<User>, guild: Option<Guild>): seq<Option<User>> {
    if guild.None? then [] else ResolveIds(users, guild.value.leadership.managers, 0)
  }

  /** `votingMembers`: the same mapping with `users[1]` as the fallback. */
  function VotingMembers(users: seq<User>, guild: Option<Guild>): seq<Option<User>> {
    if guild.None? then [] else ResolveIds(users, guild.value.leadership.votingMembers, 1)
  }

  /**
   * A resolved list has one entry per id, in the ids' order: the first
   * user with that id when there is one, otherwise the fallback user.
   */
  lemma ResolveIdsFacts(users: seq<User>, ids: seq<string>, fallback: nat)
    ensures |ResolveIds(users, ids, fallback)| == |ids|
    ensures forall i :: 0 <= i < |ids| && (exists j :: 0 <= j < |users| && users[j].id == ids[i]) ==>
      var u := ResolveIds(users, ids, fallback)[i];
      u.Some? && u.value.id == ids[i] && u.value in users
    ensures forall i :: 0 <= i < |ids| && (forall j :: 0 <= j < |users| ==> users[j].id != ids[i]) ==>
      ResolveIds(users, ids, fallback)[i] == if fallback < |users| then Some(users[fallback]) else None
  {
  }

  /**
   * With a guild, the managers and the voting members follow its leadership
   * lists entry for entry, falling back to the first and the second user
   * respectively; without one both are empty.
   */
  lemma LeadershipFacts(users: seq<User>, guild: Option<Guild>)
    ensures guild.None? ==> Managers(users, guild) == [] && VotingMembers(users, guild) == []
    ensures guild.Some? ==>
      && |Managers(users, guild)| == |guild.value.leadership.managers|
      && |VotingMembers(users, guild)| == |guild.value.leadership.votingMembers|
    ensures guild.Some? && |users| >= 2 ==>
      && (forall i :: 0 <= i < |Managers(users, guild)| ==> Managers(users, guild)[i].Some?)
      && (forall i :: 0 <= i < |VotingMembers(users, guild)| ==> VotingMembers(users, guild)[i].Some?)
  {
    if guild.Some? {
      ResolveIdsFacts(users, guild.value.leadership.managers, 0);
      ResolveIdsFacts(users, guild.value.leadership.votingMembers, 1);
    }
  }

  /** The name a post must carry: the guild's, or `undefined` without a guild. */
  function GuildName(guild: Option<Guild>): Option<string> {
    if guild.None? then None else Some(guild.value.name)
  }

  /** `posts.filter(post => post.guild === guild?.name)`. */
  function GuildPosts(posts: seq<Post>, guild: Option<Guild>): seq<Post> {
    Seqs.Filter(posts, (p: Post) => p.guild == GuildName(guild))
  }

  /**
   * The guild's posts are exactly the posts tagged with its name, in order;
   * without a guild the filter picks the posts with no guild, which the
   * page never shows.
   */
  lemma GuildPostsFacts(posts: seq<Post>, guild: Option<Guild>)
    ensures guild.Some? ==> forall p :: p in GuildPosts(posts, guild) <==> p in posts && p.guild == Some(guild.value.name)
    ensures guild.None? ==> forall p :: p in GuildPosts(posts, guild) <==> p in posts && p.guild.None?
    ensures Seqs.IsSubsequence(GuildPosts(posts, guild), posts)
  {
    Seqs.FilterIsSubsequence(posts, (p: Post) => p.guild == GuildName(guild));
  }

  /** What the page renders: "Guild not found", or the guild with its lists. */
  datatype GuildView =
    | NotFound
    | Found(guild: Guild, managers: seq<Option<User>>, votingMembers: seq<Option<User>>, posts: seq<Post>)

  function View(catalog: seq<Guild>, users: seq<User>, posts: seq<Post>, guildId: Option<string>): (v: GuildView)
    ensures v.NotFound? <==> FindGuild(catalog, guildId).None?
  {
    var g := FindGuild(catalog, guildId);
    if g.None? then NotFound
    else Found(g.value, Managers(users, g), VotingMembers(users, g), GuildPosts(posts, g))
  }

  /**
   * An unknown id shows "Guild not found"; a known one shows that guild,
   * one manager and one voting member per leadership entry, and only posts
   * tagged with its name.
   */
  lemma ViewFacts(catalog: seq<Guild>, users: seq<User>, posts: seq<Post>, guildId: Option<string>)
    ensures guildId.Some? && (forall i :: 0 <= i < |catalog| ==> catalog[i].id != guildId.value) ==>
      View(catalog, users, posts, guildId) == NotFound
    ensures View(catalog, users, posts, guildId).Found? ==>
      var v := View(catalog, users, posts, guildId);
      && v.guild in catalog && v.guild.id == guildId.value
      && |v.managers| == |v.guild.leadership.managers|
      && |v.votingMembers| == |v.guild.leadership.votingMembers|
      && (forall p :: p in v.posts ==> p in posts && p.guild == Some(v.guild.name))
  {
    var g := FindGuild(catalog, guildId);
    LeadershipFacts(users, g);
    GuildPostsFacts(posts, g);
  }

  // ---------------------------------------------------------------- membership and composer

  datatype GuildPage = GuildPage(tab: int, isMember: bool, scheduleOpen: bool, content: string)

  const InitialPage := GuildPage(0, false, false, "")

  /** `handleJoinLeave`. */
  function JoinLeave(page: GuildPage): (r: GuildPage)
    ensures r.isMember != page.isMember
    ensures r.(isMember := page.isMember) == page
  {
    page.(isMember := !page.isMember)
  }

  /** The composer and "Schedule Meeting" are shown to members only. */
  predicate ComposerShown(page: GuildPage) { page.isMember }

  predicate ScheduleShown(page: GuildPage) { page.isMember }

  function JoinLabel(page: GuildPage): (text: string)
    ensures text == "Leave Guild" <==> page.isMember
    ensures text != "Leave Guild" ==> text == "Join Guild"
  {
    if page.isMember then "Leave Guild" else "Join Guild"
  }

  /** The Post button is disabled while the content trims to nothing. */
  predicate PostDisabled(page: GuildPage) {
    Text.Trim(page.content) == []
  }

  /** `handlePostSubmit`: the content is cleared and nothing is posted. */
  function SubmitPost(page: GuildPage): (r: GuildPage)
    ensures r.content == [] && PostDisabled(r)
    ensures r.(content := page.content) == page
  {
    page.(content := [])
  }

  /**
   * Joining shows the composer and the meeting button; leaving hides both;
   * two clicks give back the page. A visitor starts outside the guild.
   */
  lemma MembershipFacts(page: GuildPage)
    ensures ComposerShown(JoinLeave(page)) <==> !ComposerShown(page)
    ensures ScheduleShown(JoinLeave(page)) <==> !page.isMember
    ensures JoinLeave(JoinLeave(page)) == page
    ensures !ComposerShown(InitialPage) && !ScheduleShown(InitialPage)
  {
  }

  /** Post is disabled exactly when the content is nothing but white space. */
  lemma PostDisabledFacts(page: GuildPage)
    ensures PostDisabled(page) <==> Text.Blank(page.content)
    ensures PostDisabled(InitialPage)
  {
    Text.TrimEmpty(page.content);
  }
}
