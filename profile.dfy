/**
 * The profile page: whose profile is shown, whether it is the visitor's
 * own, the profile's posts and their count, the Follow button offered on
 * other people's profiles and the edit dialog offered on one's own.
 *
 * The fixtures `mockUsers` and `mockPosts` are the inputs `users` and
 * `posts`; the signed-in user comes from `Data.SignedInOr`.
 */
module Profile {
  import opened Wrappers
  import opened Data
  import Seqs

  /**
   * `userId ? users.find(u => u.id === userId) || currentUser : currentUser`;
   * an absent or empty route id counts as none.
   */
  function ProfileUser(users: seq<User>, current: User, userId: Option<string>): (r: User)
    ensures userId.None? || userId.value == "" ==> r == current
    ensures userId.Some? && userId.value != "" && (exists i :: 0 <= i < |users| && users[i].id == userId.value) ==>
      r in users && r.id == userId.value
    ensures userId.Some? && (forall i :: 0 <= i < |users| ==> users[i].id != userId.value) ==> r == current
  {
    if userId.None? || userId.value == "" then current
    else
      var i := Seqs.IndexOf(users, UserId, userId.value);
      if i == -1 then current else users[i]
  }

  predicate IsOwnProfile(profile: User, current: User) {
    profile.id == current.id
  }

  /**
   * The visitor's own profile is shown without a route id, and with the
   * visitor's own id; a route id of someone else shows another profile.
   */
  lemma OwnProfileFacts(users: seq<User>, current: User, userId: Option<string>)
    ensures userId.None? ==> IsOwnProfile(ProfileUser(users, current, userId), current)
    ensures userId == Some(current.id) ==> IsOwnProfile(ProfileUser(users, current, userId), current)
    ensures (&& userId.Some? && userId.value != current.id && userId.value != ""
             && exists i :: 0 <= i < |users| && users[i].id == userId.value) ==>
      !IsOwnProfile(ProfileUser(users, current, userId), current)
  {
  }

  /** `posts.filter(post => post.author.id === profileUser.id)`. */
  function UserPosts(posts: seq<Post>, profile: User): seq<Post> {
    Seqs.Filter(posts, (p: Post) => p.author.id == profile.id)
  }

  /**
   * The profile lists exactly the posts its user wrote, in order; the
   * "Posts" count is their number, at most the number of all posts.
   */
  lemma UserPostsFacts(posts: seq<Post>, profile: User)
    ensures forall p :: p in UserPosts(posts, profile) <==> p in posts && p.author.id == profile.id
    ensures Seqs.IsSubsequence(UserPosts(posts, profile), posts)
    ensures PostCount(posts, profile) <= |posts|
    ensures PostCount(posts, profile) == 0 <==> forall i :: 0 <= i < |posts| ==> posts[i].author.id != profile.id
  {
    Seqs.FilterIsSubsequence(posts, (p: Post) => p.author.id == profile.id);
    if PostCount(posts, profile) == 0 {
      forall i | 0 <= i < |posts| ensures posts[i].author.id != profile.id {
        assert posts[i] in posts;
      }
    } else {
      assert UserPosts(posts, profile)[0] in UserPosts(posts, profile);
    }
  }

  function PostCount(posts: seq<Post>, profile: User): nat {
    |UserPosts(posts, profile)|
  }

  // ---------------------------------------------------------------- buttons and dialog

  datatype EditForm = EditForm(bio: string, location: string)

  datatype ProfilePage = ProfilePage(tab: int, editOpen: bool, isFollowing: bool, form: EditForm)

  /** The page as first rendered for a profile: the form holds the profile's bio and location. */
  function InitialPage(profile: User): (page: ProfilePage)
    ensures page.form.bio == profile.bio && page.form.location == profile.location
    ensures !page.editOpen && !page.isFollowing && page.tab == 0
  {
    ProfilePage(0, false, false, EditForm(profile.bio, profile.location))
  }

  /** The buttons under the header: Edit/Settings on one's own profile, Follow/Message on another's. */
  datatype HeaderButtons = OwnButtons | VisitorButtons(followLabel: string)

  function Buttons(page: ProfilePage, profile: User, current: User): (b: HeaderButtons)
    ensures b.OwnButtons? <==> IsOwnProfile(profile, current)
    ensures b.VisitorButtons? ==> (b.followLabel == "Following" <==> page.isFollowing)
  {
    if IsOwnProfile(profile, current) then OwnButtons
    else VisitorButtons(if page.isFollowing then "Following" else "Follow")
  }

  /** The Follow button: flips `isFollowing`. */
  function ToggleFollow(page: ProfilePage): (r: ProfilePage)
    ensures r.isFollowing != page.isFollowing
    ensures r.(isFollowing := page.isFollowing) == page
  {
    page.(isFollowing := !page.isFollowing)
  }

  /**
   * Following is offered only on another's profile; each click flips the
   * label between "Follow" and "Following", and two clicks give back the
   * page.
   */
  lemma FollowFacts(page: ProfilePage, profile: User, current: User)
    ensures Buttons(page, profile, current).VisitorButtons? <==> profile.id != current.id
    ensures profile.id != current.id ==>
      (Buttons(ToggleFollow(page), profile, current).followLabel == "Following" <==> !page.isFollowing)
    ensures ToggleFollow(ToggleFollow(page)) == page
  {
  }

  /** `handleEditSubmit`: closes the dialog; the profile is not changed. */
  function SubmitEdit(page: ProfilePage): (r: ProfilePage)
    ensures !r.editOpen
    ensures r.(editOpen := page.editOpen) == page
  {
    page.(editOpen := false)
  }

  /**
   * Saving keeps whatever was typed in the form but changes nothing of the
   * profile: reopening the page for the same user starts from the old bio
   * and location.
   */
  lemma SubmitEditFacts(page: ProfilePage, profile: User)
    ensures SubmitEdit(page).form == page.form
    ensures SubmitEdit(SubmitEdit(page)) == SubmitEdit(page)
    ensures InitialPage(profile).form == EditForm(profile.bio, profile.location)
  {
  }
}
