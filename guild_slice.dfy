/**
 * The guild slice of the store: the guild catalogue, the guilds the user
 * belongs to, the guild being viewed, and the fetch flags.
 */
module GuildSlice {
  import opened Wrappers
  import opened Data
  import Seqs

  datatype GuildState = GuildState(
    guilds: seq<Guild>,
    userGuilds: seq<Guild>,
    currentGuild: Option<Guild>,
    loading: bool,
    error: Option<string>)

  const InitialState := GuildState([], [], None, false, None)

  /** `currentGuild` after `updateGuild`: replaced exactly when its id is the payload's. */
  function UpdatedCurrent(current: Option<Guild>, g: Guild): (r: Option<Guild>)
    ensures r == Some(g) <==> (current.Some? && current.value.id == g.id)
    ensures r != Some(g) ==> r == current
  {
    if current.Some? && current.value.id == g.id then Some(g) else current
  }

  /**
   * Joining then leaving a guild leaves no user guild with its id; when the
   * user was not in it, the list is exactly what it was.
   */
  lemma JoinThenLeave(userGuilds: seq<Guild>, g: Guild)
    ensures forall x :: x in Seqs.RemoveKey(Seqs.AddIfAbsent(userGuilds, GuildId, g), GuildId, g.id) ==> x.id != g.id
    ensures (forall i :: 0 <= i < |userGuilds| ==> userGuilds[i].id != g.id) ==>
      Seqs.RemoveKey(Seqs.AddIfAbsent(userGuilds, GuildId, g), GuildId, g.id) == userGuilds
  {
    Seqs.AddThenRemove(userGuilds, GuildId, g);
  }

  /** Joining is idempotent, and appends exactly when the id was absent. */
  /**
   * With each guild at most once, leaving a guild the user is in drops
   * exactly that guild: the others stay in order and the list is one shorter.
   */
  lemma LeavePresentGuild(userGuilds: seq<Guild>, i: int)
    requires Seqs.UniqueKeys(userGuilds, GuildId) && 0 <= i < |userGuilds|
    ensures Seqs.RemoveKey(userGuilds, GuildId, userGuilds[i].id) == userGuilds[..i] + userGuilds[i + 1..]
    ensures |Seqs.RemoveKey(userGuilds, GuildId, userGuilds[i].id)| == |userGuilds| - 1
  {
    Seqs.RemoveUniqueKey(userGuilds, GuildId, i);
  }

  lemma JoinFacts(userGuilds: seq<Guild>, g: Guild)
    ensures var once := Seqs.AddIfAbsent(userGuilds, GuildId, g);
      Seqs.AddIfAbsent(once, GuildId, g) == once
    ensures (forall i :: 0 <= i < |userGuilds| ==> userGuilds[i].id != g.id) ==>
      Seqs.AddIfAbsent(userGuilds, GuildId, g) == userGuilds + [g]
    ensures (exists i :: 0 <= i < |userGuilds| && userGuilds[i].id == g.id) ==>
      Seqs.AddIfAbsent(userGuilds, GuildId, g) == userGuilds
  {
    var once := Seqs.AddIfAbsent(userGuilds, GuildId, g);
    Seqs.AddIfAbsentFacts(userGuilds, GuildId, g);
    if Seqs.IndexOf(userGuilds, GuildId, g.id) == -1 {
      assert once[|userGuilds|] == g;
    }
    Seqs.AddIfAbsentFacts(once, GuildId, g);
  }

  class GuildStore {
    var guilds: seq<Guild>
    var userGuilds: seq<Guild>
    var currentGuild: Option<Guild>
    var loading: bool
    var error: Option<string>

    function State(): GuildState
      reads this
    {
      GuildState(guilds, userGuilds, currentGuild, loading, error)
    }

    /** The user's guilds are distinct by id. */
    ghost predicate Valid()
      reads this
    {
      Seqs.UniqueKeys(userGuilds, GuildId)
    }

    constructor ()
      ensures State() == InitialState && Valid()
    {
      guilds, userGuilds, currentGuild := [], [], None;
      loading, error := false, None;
    }

    method FetchGuildsStart()
      modifies this
      ensures State() == old(State()).(loading := true, error := None)
      ensures old(Valid()) ==> Valid()
    {
      loading := true;
      error := None;
    }

    method FetchGuildsSuccess(payload: seq<Guild>)
      modifies this
      ensures State() == old(State()).(guilds := payload, loading := false)
      ensures old(Valid()) ==> Valid()
    {
      guilds := payload;
      loading := false;
    }

    method FetchGuildsFailure(message: string)
      modifies this
      ensures State() == old(State()).(loading := false, error := Some(message))
      ensures old(Valid()) ==> Valid()
    {
      loading := false;
      error := Some(message);
    }

    /** Overwrites the list unchecked, so the invariant holds afterwards exactly when the payload is duplicate-free. */
    method SetUserGuilds(payload: seq<Guild>)
      modifies this
      ensures State() == old(State()).(userGuilds := payload)
      ensures Valid() <==> Seqs.UniqueKeys(payload, GuildId)
    {
      userGuilds := payload;
    }

    method SetCurrentGuild(g: Guild)
      modifies this
      ensures State() == old(State()).(currentGuild := Some(g))
      ensures old(Valid()) ==> Valid()
    {
      currentGuild := Some(g);
    }

    method JoinGuild(g: Guild)
      modifies this
      ensures State() == old(State()).(userGuilds := Seqs.AddIfAbsent(old(userGuilds), GuildId, g))
      ensures old(Valid()) ==> Valid()
    {
      var i := Seqs.FindIndex(userGuilds, GuildId, g.id);
      if i == -1 {
        userGuilds := userGuilds + [g];
      }
      Seqs.AddIfAbsentFacts(old(userGuilds), GuildId, g);
    }

    method LeaveGuild(guildId: string)
      modifies this
      ensures State() == old(State()).(userGuilds := Seqs.RemoveKey(old(userGuilds), GuildId, guildId))
      ensures old(Valid()) ==> Valid()
      ensures old(Valid()) && (exists i :: 0 <= i < |old(userGuilds)| && old(userGuilds)[i].id == guildId) ==>
        |userGuilds| == |old(userGuilds)| - 1
    {
      ghost var before := userGuilds;
      userGuilds := Seqs.RemoveKey(userGuilds, GuildId, guildId);
      if Seqs.UniqueKeys(before, GuildId) {
        Seqs.RemoveKeyKeepsUnique(before, GuildId, guildId);
        if exists i :: 0 <= i < |before| && before[i].id == guildId {
          var i :| 0 <= i < |before| && before[i].id == guildId;
          LeavePresentGuild(before, i);
        }
      }
    }

    /** Replaces the catalogue entry and the viewed guild with that id; the user's guilds are not touched. */
    method UpdateGuild(g: Guild)
      modifies this
      ensures State() == old(State()).(
        guilds := Seqs.ReplaceFirst(old(guilds), GuildId, g),
        currentGuild := UpdatedCurrent(old(currentGuild), g))
      ensures old(Valid()) ==> Valid()
    {
      var i := Seqs.FindIndex(guilds, GuildId, g.id);
      if i != -1 {
        guilds := guilds[i := g];
      }
      if currentGuild.Some? && currentGuild.value.id == g.id {
        currentGuild := Some(g);
      }
    }
  }
}
