/**
 * The social feed page: the three tabs that filter the posts, the body
 * that shows either the posts or the empty state, the reaction buttons of
 * a post card and the new-post dialog's tag field and chips.
 *
 * The fixture `mockPosts` is the input `posts`; the signed-in user comes
 * from `Data.SignedInOr`.
 */
module Feed {
  import opened Wrappers
  import opened Data
  import Seqs
  import Text

  /** `post.guild || ''`. */
  function GuildOrEmpty(p: Post): string {
    if p.guild.Some? then p.guild.value else ""
  }

  /** The tab test: 0 all, 1 posts of the user's guilds, 2 the user's own posts, any other tab all. */
  predicate OnTab(tab: int, user: User, p: Post) {
    if tab == 0 then true
    else if tab == 1 then GuildOrEmpty(p) in user.guilds
    else if tab == 2 then p.author.id == user.id
    else true
  }

  function FilteredPosts(posts: seq<Post>, tab: int, user: User): seq<Post> {
    Seqs.Filter(posts, (p: Post) => OnTab(tab, user, p))
  }

  /**
   * The first tab and any tab past the third list every post; "My Guilds"
   * lists exactly the posts whose guild (or "" for none) is one of the
   * user's; "My Posts" exactly the user's own; every tab keeps the order.
   */
  lemma FilteredPostsFacts(posts: seq<Post>, tab: int, user: User)
    ensures tab !in {1, 2} ==> FilteredPosts(posts, tab, user) == posts
    ensures tab == 1 ==> forall p :: p in FilteredPosts(posts, tab, user) <==>
      p in posts && (if p.guild.Some? then p.guild.value else "") in user.guilds
    ensures tab == 2 ==> forall p :: p in FilteredPosts(posts, tab, user) <==> p in posts && p.author.id == user.id
    ensures Seqs.IsSubsequence(FilteredPosts(posts, tab, user), posts)
  {
    Seqs.FilterIsSubsequence(posts, (p: Post) => OnTab(tab, user, p));
    if tab !in {1, 2} {
      Seqs.FilterKeepsAll(posts, (p: Post) => OnTab(tab, user, p));
    }
  }

  /** The body under the tabs. */
  datatype FeedBody = Loading | EmptyState | Cards(posts: seq<Post>)

  function Body(filtered: seq<Post>, loading: bool): (b: FeedBody)
    ensures b.Cards? ==> b.posts == filtered
  {
    if loading then Loading else if filtered == [] then EmptyState else Cards(filtered)
  }

  /** The page's `loading` is fixed at false: the empty state appears exactly when the tab lists no post. */
  lemma EmptyStateIff(posts: seq<Post>, tab: int, user: User)
    ensures Body(FilteredPosts(posts, tab, user), false) == EmptyState <==> FilteredPosts(posts, tab, user) == []
    ensures Body(FilteredPosts(posts, tab, user), false) != Loading
    ensures posts == [] ==> Body(FilteredPosts(posts, tab, user), false) == EmptyState
  {
  }

  // ---------------------------------------------------------------- a post card

  datatype ReactionKind = Hearts | Leaves | Suns

  /** `handleReaction`: whatever the reaction, `liked` flips. */
  function HandleReaction(liked: bool, kind: ReactionKind): (r: bool)
    ensures r != liked
  {
    !liked
  }

  /** Two reactions, of any kinds, restore `liked`; the kind never matters. */
  lemma ReactionFacts(liked: bool, a: ReactionKind, b: ReactionKind)
    ensures HandleReaction(HandleReaction(liked, a), b) == liked
    ensures HandleReaction(liked, a) == HandleReaction(liked, b)
  {
  }

  // ---------------------------------------------------------------- the new-post dialog

  datatype NewPost = NewPost(content: string, kind: string, tags: seq<string>)

  const InitialNewPost := NewPost("", "text", [])

  /** `value.split(',').map(t => t.trim())`. */
  function ParseTags(input: string): seq<string> {
    var pieces := Text.Split(input, ',');
    seq(|pieces|, i requires 0 <= i < |pieces| => Text.Trim(pieces[i]))
  }

  /**
   * There is one tag per comma-separated piece, each the piece trimmed, in
   * order; no tag holds a comma, and an input without a comma is one tag.
   */
  lemma ParseTagsFacts(input: string)
    ensures |ParseTags(input)| == multiset(input)[','] + 1
    ensures forall i :: 0 <= i < |ParseTags(input)| ==> ParseTags(input)[i] == Text.Trim(Text.Split(input, ',')[i])
    ensures forall i :: 0 <= i < |ParseTags(input)| ==> ',' !in ParseTags(input)[i]
    ensures ',' !in input ==> ParseTags(input) == [Text.Trim(input)]
  {
    Text.SplitCount(input, ',');
    TrimOfPieces(input);
    var pieces := Text.Split(input, ',');
    forall i | 0 <= i < |pieces| ensures ',' !in Text.Trim(pieces[i]) {
      TrimKeepsOut(pieces[i], ',');
    }
    if ',' !in input {
      SplitNoSep(input);
    }
  }

  /** Trimming adds no character: one absent before is absent after. */
  lemma TrimKeepsOut(s: string, c: char)
    requires c !in s
    ensures c !in Text.Trim(s)
  {
    var t := Text.Trim(s);
    var k := |s| - |Text.TrimStart(s)|;
    forall j | 0 <= j < |t| ensures t[j] != c {
      assert t[j] == s[k + j];
    }
  }

  /** The tags are the pieces, each trimmed. */
  lemma TrimOfPieces(input: string)
    ensures |ParseTags(input)| == |Text.Split(input, ',')|
    ensures forall i :: 0 <= i < |ParseTags(input)| ==> ParseTags(input)[i] == Text.Trim(Text.Split(input, ',')[i])
  {
  }

  /** A blank piece between two commas gives an empty tag. */
  lemma DoubleCommaKept(a: string, b: string)
    requires ',' !in a && ',' !in b
    ensures ParseTags(a + ",," + b) == [Text.Trim(a), [], Text.Trim(b)]
  {
    var s := a + ",," + b;
    SplitDoubleComma(a, b);
    TagsOfThree(s, a, [], b);
    assert Text.Trim([]) == [];
  }

  lemma SplitDoubleComma(a: string, b: string)
    requires ',' !in a && ',' !in b
    ensures Text.Split(a + ",," + b, ',') == [a, [], b]
  {
    var rest := [','] + b;
    assert a + ",," + b == a + [','] + rest;
    SplitAround(a, rest);
    assert rest[0] == ',' && rest[1..] == b;
    assert Text.Split(rest, ',') == [[]] + Text.Split(b, ',');
    SplitNoSep(b);
  }

  lemma TagsOfThree(s: string, x: string, y: string, z: string)
    requires Text.Split(s, ',') == [x, y, z]
    ensures ParseTags(s) == [Text.Trim(x), Text.Trim(y), Text.Trim(z)]
  {
    TrimOfPieces(s);
  }

  /** A trailing comma gives an empty last tag. */
  lemma TrailingCommaKept(a: string)
    requires ',' !in a
    ensures ParseTags(a + ",") == [Text.Trim(a), []]
  {
    var s := a + ",";
    assert s == a + [','] + [];
    SplitAround(a, []);
    assert Text.Split(s, ',') == [a, []];
    TrimOfPieces(s);
    assert Text.Trim([]) == [];
  }

  /** A string without the separator is one piece. */
  lemma {:induction false} SplitNoSep(s: string)
    requires ',' !in s
    ensures Text.Split(s, ',') == [s]
    decreases |s|
  {
    if s != [] {
      SplitNoSep(s[1..]);
      assert [s[0]] + s[1..] == s;
    }
  }

  /** Splitting at the first separator: the piece before it, then the pieces after it. */
  lemma {:induction false} SplitAround(a: string, rest: string)
    requires ',' !in a
    ensures Text.Split(a + [','] + rest, ',') == [a] + Text.Split(rest, ',')
    decreases |a|
  {
    if a == [] {
      assert a + [','] + rest == [','] + rest;
      assert ([','] + rest)[1..] == rest;
    } else {
      SplitAround(a[1..], rest);
      var s := a + [','] + rest;
      assert s[0] == a[0] && s[1..] == a[1..] + [','] + rest;
      assert [a[0]] + a[1..] == a;
    }
  }

  /** Typing into the tag field replaces the tags with the parsed pieces; the rest of the draft stays. */
  function OnTagsInput(draft: NewPost, input: string): (r: NewPost)
    ensures r.tags == ParseTags(input)
    ensures r.content == draft.content && r.kind == draft.kind
  {
    draft.(tags := ParseTags(input))
  }

  /** A chip's delete button: `tags.filter((_, i) => i !== index)`. */
  function OnDeleteTag(draft: NewPost, index: int): (r: NewPost)
    ensures r.content == draft.content && r.kind == draft.kind
  {
    draft.(tags := Seqs.RemoveAt(draft.tags, index))
  }

  /**
   * Deleting chip `index` removes exactly that tag, keeps the others in
   * their order, and removes one occurrence of its text from the tags.
   */
  lemma DeleteTagFacts(draft: NewPost, index: int)
    requires 0 <= index < |draft.tags|
    ensures var r := OnDeleteTag(draft, index).tags;
      && |r| == |draft.tags| - 1
      && r == draft.tags[..index] + draft.tags[index + 1..]
      && multiset(r) + multiset{draft.tags[index]} == multiset(draft.tags)
  {
    var t := draft.tags;
    assert t == t[..index] + [t[index]] + t[index + 1..];
  }
}
