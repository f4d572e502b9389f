/**
 * The shared record shapes of the application (`User`, `Post`, `Product`,
 * `Guild`, `Course`). Numbers that hold money, scores or ratings are exact
 * reals; counts are integers. Optional fields (`media?`, `guild?`,
 * `location?`) are `Option`s.
 */
module Data {
  import opened Wrappers

  /** Balances in the three platform currencies (`{ V, Y, Q }`). */
  datatype Balances = Balances(v: real, y: real, q: real)

  /** A price in each of the three settlement currencies (`{ USD, V, Y }`), authored independently. */
  datatype Prices = Prices(usd: real, v: real, y: real)

  datatype PersonalValues = PersonalValues(geneKeys: seq<int>, humanDesign: string, enneagram: string)

  datatype UserImpact = UserImpact(treesPlanted: int, soilRestored: string, peopleEducated: int)

  datatype User = User(
    id: string,
    username: string,
    fullName: string,
    email: string,
    avatar: string,
    bio: string,
    location: string,
    values: PersonalValues,
    certifications: seq<string>,
    guilds: seq<string>,
    impact: UserImpact,
    currencies: Balances,
    joinedDate: string,
    followers: int,
    following: int)

  datatype PostType = Text | Image | Video | ProjectUpdate | Event

  datatype Reactions = Reactions(hearts: int, leaves: int, suns: int)

  datatype Post = Post(
    id: string,
    author: User,
    kind: PostType,
    content: string,
    media: Option<seq<string>>,
    tags: seq<string>,
    guild: Option<string>,
    reactions: Reactions,
    comments: int,
    timestamp: string,
    location: Option<string>)

  datatype ProductImpact = ProductImpact(biodiversityScore: real, carbonFootprint: real, communityBenefit: string)

  datatype Product = Product(
    id: string,
    seller: string,
    name: string,
    description: string,
    price: Prices,
    certifications: seq<string>,
    impact: ProductImpact,
    images: seq<string>,
    category: string,
    inStock: bool,
    rating: real,
    reviews: int)

  datatype Leadership = Leadership(managers: seq<string>, votingMembers: seq<string>)

  datatype Guild = Guild(
    id: string,
    name: string,
    description: string,
    mission: string,
    avatar: string,
    banner: string,
    category: string,
    members: int,
    projects: int,
    location: Option<string>,
    founded: string,
    leadership: Leadership,
    tags: seq<string>)

  datatype Level = Beginner | Intermediate | Advanced

  /** The string a `level` holds at run time: `'beginner' | 'intermediate' | 'advanced'`. */
  function LevelName(l: Level): string {
    match l
    case Beginner => "beginner"
    case Intermediate => "intermediate"
    case Advanced => "advanced"
  }

  datatype Course = Course(
    id: string,
    title: string,
    description: string,
    instructor: User,
    category: string,
    duration: string,
    level: Level,
    price: Prices,
    rating: real,
    students: int,
    modules: int,
    image: string,
    tags: seq<string>)

  /** Key functions, named so that every search by id uses the same one. */
  function ProductId(p: Product): string { p.id }
  function PostId(p: Post): string { p.id }
  function GuildId(g: Guild): string { g.id }
  function UserId(u: User): string { u.id }
  function CourseId(c: Course): string { c.id }

  /** `state.auth.user || mockUsers[0]`: the signed-in user, or the first fixture user when nobody is signed in. */
  function SignedInOr(auth: Option<User>, firstFixture: User): User {
    if auth.Some? then auth.value else firstFixture
  }
}
