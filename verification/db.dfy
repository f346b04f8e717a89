/**
 * The documents of the three collections (users, profiles, posts), the
 * shape of an HTTP response, and the store the handlers read and write.
 * The store is sequential: each collection is a sequence of documents in
 * insertion order, and a handler's reads and writes are not interleaved
 * with another's.
 */
module Db {
  import opened Sequences

  type UserId = string
  type PostId = string
  type CommentId = string
  type ProfileId = string
  type EntryId = string

  datatype User = User(id: UserId, name: string, email: string, avatar: string, password: string)

  datatype Like = Like(user: UserId)

  /** A comment; `name` and `avatar` are copies of the author's at the time of commenting. */
  datatype Comment = Comment(id: CommentId, user: UserId, text: string, name: string, avatar: string, date: int)

  /** A post; `name` and `avatar` are copies of the author's at the time of posting. */
  datatype Post = Post(
    id: PostId, user: UserId, text: string, name: string, avatar: string,
    likes: seq<Like>, comments: seq<Comment>, date: int)

  /** The `social` sub-object: one optional link per platform. */
  datatype Social = Social(
    youtube: Option<string>, twitter: Option<string>, facebook: Option<string>,
    linkedin: Option<string>, instagram: Option<string>)

  const NoSocial := Social(None, None, None, None, None)

  datatype Experience = Experience(
    id: EntryId, title: string, company: string, location: Option<string>,
    from: string, to: Option<string>, current: Option<bool>, description: Option<string>)

  datatype Education = Education(
    id: EntryId, school: string, degree: string, fieldofstudy: string,
    from: string, to: Option<string>, current: Option<bool>, description: Option<string>)

  datatype Profile = Profile(
    id: ProfileId, user: UserId,
    company: Option<string>, website: Option<string>, location: Option<string>,
    bio: Option<string>, status: Option<string>, githubusername: Option<string>,
    skills: seq<string>, social: Social,
    experience: seq<Experience>, education: seq<Education>)

  /**
   * A response body: `{msg}`, `{errors: [{msg}, ...]}`, a JSON string
   * (`res.json("...")`), plain text (`res.send("...")`), or a document.
   */
  datatype Body =
    | Msg(msg: string)
    | Errors(msgs: seq<string>)
    | JsonString(s: string)
    | PlainText(text: string)
    | Token(token: string)
    | LikesBody(likes: seq<Like>)
    | CommentsBody(comments: seq<Comment>)
    | PostBody(post: Post)
    | PostsBody(posts: seq<Post>)
    | ProfileBody(profile: Profile)
    | ProfilesBody(profiles: seq<Profile>)

  datatype Response = Response(status: int, body: Body)

  // Keys by which documents and sub-documents are looked up.
  function UserIdOf(u: User): UserId { u.id }
  function UserEmail(u: User): string { u.email }
  function PostIdOf(p: Post): PostId { p.id }
  function PostAuthor(p: Post): UserId { p.user }
  function LikeUser(l: Like): UserId { l.user }
  function CommentIdOf(c: Comment): CommentId { c.id }
  function CommentAuthor(c: Comment): UserId { c.user }
  function ProfileOwner(p: Profile): UserId { p.user }
  function ExperienceIdOf(e: Experience): EntryId { e.id }
  function EducationIdOf(e: Education): EntryId { e.id }

  /** `User.findById(id)`: the position of the user, or -1. */
  function FindUser(users: seq<User>, id: UserId): (i: int)
    ensures i == -1 <==> id !in Keys(users, UserIdOf)
    ensures i != -1 ==> 0 <= i < |users| && users[i].id == id && forall j :: 0 <= j < i ==> users[j].id != id
  {
    IndexOf(Keys(users, UserIdOf), id)
  }

  /** `Post.findById(id)`: the position of the post, or -1. */
  function FindPost(posts: seq<Post>, id: PostId): (i: int)
    ensures i == -1 <==> id !in Keys(posts, PostIdOf)
    ensures i != -1 ==> 0 <= i < |posts| && posts[i].id == id && forall j :: 0 <= j < i ==> posts[j].id != id
  {
    IndexOf(Keys(posts, PostIdOf), id)
  }

  /** `Profile.findOne({user})`: the position of the first profile of `user`, or -1. */
  function FindProfile(profiles: seq<Profile>, user: UserId): (i: int)
    ensures i == -1 <==> user !in Keys(profiles, ProfileOwner)
    ensures i != -1 ==>
      0 <= i < |profiles| && profiles[i].user == user && forall j :: 0 <= j < i ==> profiles[j].user != user
  {
    IndexOf(Keys(profiles, ProfileOwner), user)
  }

  /** Users have distinct ids and distinct emails. */
  ghost predicate UsersOk(users: seq<User>)
  {
    UniqueKeys(users, UserIdOf) && UniqueKeys(users, UserEmail)
  }

  /** At most one profile per user. */
  ghost predicate ProfilesOk(profiles: seq<Profile>)
  {
    UniqueKeys(profiles, ProfileOwner)
  }

  /** Posts have distinct ids, and no user appears twice in a post's likes. */
  ghost predicate PostsOk(posts: seq<Post>)
  {
    UniqueKeys(posts, PostIdOf) && forall p | p in posts :: UniqueKeys(p.likes, LikeUser)
  }

  /** The database: the users, profiles and posts collections. */
  class Store {
    var users: seq<User>
    var profiles: seq<Profile>
    var posts: seq<Post>

    ghost predicate Valid()
      reads this
    {
      UsersOk(users) && ProfilesOk(profiles) && PostsOk(posts)
    }

    constructor ()
      ensures users == [] && profiles == [] && posts == []
      ensures Valid()
    {
      users, profiles, posts := [], [], [];
    }
  }
}
