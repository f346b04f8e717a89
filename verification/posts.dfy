/**
 * The post routes (routes/api/post.js): create, list, read and delete
 * posts, like and unlike them, add and delete comments. Each handler
 * receives `me`, the `req.user.id` the auth gate set.
 */
module Posts {
  import opened Sequences
  import opened Db

  const PostNotFound := Response(404, Msg("Post not found"))
  const NotAuthorized := Response(401, Msg("User not authorized"))
  const ServerError := Response(500, JsonString("Server Error"))

  function LikeUsers(likes: seq<Like>): seq<UserId> { Keys(likes, LikeUser) }
  function CommentAuthors(comments: seq<Comment>): seq<UserId> { Keys(comments, CommentAuthor) }
  function CommentIds(comments: seq<Comment>): seq<CommentId> { Keys(comments, CommentIdOf) }

  /** The filter callback `like => like.user === user`. */
  function LikedBy(user: UserId): Like -> bool
  {
    (l: Like) => l.user == user
  }


  /** The post after `post.likes.unshift({user})`. */
  function Liked(post: Post, user: UserId): (r: Post)
    ensures |r.likes| == |post.likes| + 1 && r.likes[0].user == user && r.likes[1..] == post.likes
    ensures r.(likes := post.likes) == post
  {
    post.(likes := [Like(user)] + post.likes)
  }

  /** The post after `post.likes.splice(post.likes.map(l => l.user).indexOf(user), 1)`. */
  function Unliked(post: Post, user: UserId): (r: Post)
    ensures user in LikeUsers(post.likes) ==> |r.likes| == |post.likes| - 1
    ensures user !in LikeUsers(post.likes) && post.likes != [] ==> r.likes == post.likes[..|post.likes| - 1]
    ensures r.(likes := post.likes) == post
  {
    post.(likes := Splice1(post.likes, IndexOf(LikeUsers(post.likes), user)))
  }

  /** The post after `post.comments.unshift(c)`. */
  function Commented(post: Post, c: Comment): (r: Post)
    ensures |r.comments| == |post.comments| + 1 && r.comments[0] == c && r.comments[1..] == post.comments
    ensures r.(comments := post.comments) == post
  {
    post.(comments := [c] + post.comments)
  }

  /** The post after `post.comments.splice(post.comments.map(c => c.user).indexOf(user), 1)`. */
  function Uncommented(post: Post, user: UserId): (r: Post)
    ensures user in CommentAuthors(post.comments) ==> |r.comments| == |post.comments| - 1
    ensures user !in CommentAuthors(post.comments) && post.comments != [] ==>
      r.comments == post.comments[..|post.comments| - 1]
    ensures r.(comments := post.comments) == post
  {
    post.(comments := Splice1(post.comments, IndexOf(CommentAuthors(post.comments), user)))
  }

  /** Posts in order of decreasing date. */
  predicate NewestFirst(s: seq<Post>)
  {
    forall i, j | 0 <= i < j < |s| :: s[i].date >= s[j].date
  }

  /** `p` inserted into `s` ahead of the first post that is not newer than it. */
  function InsertByDate(p: Post, s: seq<Post>): (r: seq<Post>)
    ensures |r| == |s| + 1 && (r[0] == p || (s != [] && r[0] == s[0]))
  {
    if s == [] || p.date >= s[0].date then [p] + s
    else [s[0]] + InsertByDate(p, s[1..])
  }

  /** Inserting into a newest-first sequence keeps it newest-first. */
  lemma {:induction false} InsertKeepsNewestFirst(p: Post, s: seq<Post>)
    requires NewestFirst(s)
    ensures NewestFirst(InsertByDate(p, s))
  {
    if s != [] && p.date < s[0].date {
      var t := InsertByDate(p, s[1..]);
      InsertKeepsNewestFirst(p, s[1..]);
      assert t[0].date <= s[0].date;
      var r := [s[0]] + t;
      forall i, j | 0 <= i < j < |r| ensures r[i].date >= r[j].date {
        if i == 0 && j > 1 {
          assert t[0].date >= t[j - 1].date;
        }
      }
    }
  }

  /** Inserting adds exactly `p`. */
  lemma {:induction false} InsertAddsOne(p: Post, s: seq<Post>)
    ensures multiset(InsertByDate(p, s)) == multiset(s) + multiset{p}
  {
    if s != [] && p.date < s[0].date {
      InsertAddsOne(p, s[1..]);
      assert s == [s[0]] + s[1..];
    }
  }

  /** The posts ordered by decreasing date, as `sort({date: -1})` returns them. */
  function SortByDateDesc(s: seq<Post>): (r: seq<Post>)
    ensures NewestFirst(r)
    ensures multiset(r) == multiset(s)
  {
    if s == [] then []
    else
      var t := SortByDateDesc(s[1..]);
      InsertKeepsNewestFirst(s[0], t);
      InsertAddsOne(s[0], t);
      assert s == [s[0]] + s[1..];
      InsertByDate(s[0], t)
  }

  /** The filter in `like` and `unlike` finds something exactly when `user` has liked the post. */
  lemma FilterFindsLiker(likes: seq<Like>, user: UserId)
    ensures |Filter(likes, LikedBy(user))| > 0 <==> user in LikeUsers(likes)
  {
    var r := Filter(likes, LikedBy(user));
    KeyIn(likes, LikeUser, user);
    if |r| > 0 {
      assert r[0] in r;
      var i :| 0 <= i < |likes| && likes[i] == r[0];
      assert LikeUser(likes[i]) == user;
    }
    if user in LikeUsers(likes) {
      var i :| 0 <= i < |likes| && LikeUser(likes[i]) == user;
      assert likes[i] in r;
    }
  }

  /** A like by a user who had not liked the post adds exactly that user, in front, and keeps likers unique. */
  lemma LikeAddsLiker(post: Post, user: UserId)
    requires UniqueKeys(post.likes, LikeUser) && user !in LikeUsers(post.likes)
    ensures LikeUsers(Liked(post, user).likes) == [user] + LikeUsers(post.likes)
    ensures UniqueKeys(Liked(post, user).likes, LikeUser)
  {
    var likes := [Like(user)] + post.likes;
    assert Liked(post, user).likes == likes;
    AddKeepsUnique(post.likes, Like(user), LikeUser);
    assert LikeUsers(likes) == [user] + LikeUsers(post.likes) by {
      forall i | 1 <= i < |likes| ensures LikeUsers(likes)[i] == LikeUsers(post.likes)[i - 1] {
        assert likes[i] == post.likes[i - 1];
      }
    }
  }

  /**
   * An unlike by a user who has liked the post removes exactly that
   * user's like: the others stay, in order, and the user is no longer
   * among the likers.
   */
  lemma UnlikeRemovesLiker(post: Post, user: UserId)
    requires UniqueKeys(post.likes, LikeUser) && user in LikeUsers(post.likes)
    ensures Unliked(post, user).likes == RemoveFirstWhere(post.likes, LikeUser, user)
    ensures |Unliked(post, user).likes| == |post.likes| - 1
    ensures forall l :: l in Unliked(post, user).likes <==> l in post.likes && l.user != user
    ensures UniqueKeys(Unliked(post, user).likes, LikeUser)
  {
    SpliceAtIndexOfRemovesFirst(post.likes, LikeUser, user);
    RemoveFirstErases(post.likes, LikeUser, user);
    RemoveAtKeepsUnique(post.likes, IndexOf(LikeUsers(post.likes), user), LikeUser);
  }

  /** Liking a post and then unliking it gives back the post as it was. */
  lemma LikeUnlikeRoundTrip(post: Post, user: UserId)
    ensures Unliked(Liked(post, user), user) == post
  {
    assert LikeUsers(Liked(post, user).likes)[0] == user;
  }

  /**
   * Deleting a comment removes exactly one comment: the first (newest)
   * one whose author is the requester. The rest stay in order.
   */
  lemma UncommentRemovesNewestOwn(post: Post, user: UserId)
    requires user in CommentAuthors(post.comments)
    ensures var k := IndexOf(CommentAuthors(post.comments), user);
      && post.comments[k].user == user
      && (forall j :: 0 <= j < k ==> post.comments[j].user != user)
      && Uncommented(post, user).comments == post.comments[..k] + post.comments[k + 1..]
    ensures Uncommented(post, user).comments == RemoveFirstWhere(post.comments, CommentAuthor, user)
  {
    var k := IndexOf(CommentAuthors(post.comments), user);
    forall j | 0 <= j < k ensures post.comments[j].user != user {
      assert CommentAuthors(post.comments)[..k][j] == post.comments[j].user;
    }
    SpliceAtIndexOfRemovesFirst(post.comments, CommentAuthor, user);
  }

  /**
   * The comment named in the request (the first with that id, authored by
   * the requester) is the one removed exactly when the requester has no
   * newer comment on the post; otherwise a newer comment of theirs goes.
   */
  lemma UncommentHitsNamedIff(comments: seq<Comment>, commentId: CommentId, user: UserId)
    requires commentId in CommentIds(comments)
    requires comments[IndexOf(CommentIds(comments), commentId)].user == user
    ensures var named := IndexOf(CommentIds(comments), commentId);
      var removed := IndexOf(CommentAuthors(comments), user);
      && 0 <= removed <= named
      && (removed == named <==> forall j :: 0 <= j < named ==> comments[j].user != user)
  {
    var named := IndexOf(CommentIds(comments), commentId);
    assert CommentAuthors(comments)[named] == user;
    var removed := IndexOf(CommentAuthors(comments), user);
    if removed < named {
      assert comments[removed].user == user;
    }
    if removed == named {
      forall j | 0 <= j < named ensures comments[j].user != user {
        assert CommentAuthors(comments)[..removed][j] == comments[j].user;
      }
    }
  }

  /**
   * A witness: with two comments by the same user, asking to delete the
   * older one ("b") deletes the newer one ("a") and leaves "b" in place.
   */
  lemma UncommentCanMissNamed()
    ensures var ca := Comment("a", "u", "new", "U", "img", 2);
      var cb := Comment("b", "u", "old", "U", "img", 1);
      var post := Post("p", "v", "t", "V", "img", [], [ca, cb], 0);
      && IndexOf(CommentIds(post.comments), "b") == 1
      && post.comments[1].user == "u"
      && Uncommented(post, "u").comments == [cb]
  {
    var ca := Comment("a", "u", "new", "U", "img", 2);
    var cb := Comment("b", "u", "old", "U", "img", 1);
    assert CommentIds([ca, cb]) == ["a", "b"];
    assert CommentAuthors([ca, cb]) == ["u", "u"];
  }

  /** Replacing a post by one with the same id and unique likers keeps the collection consistent. */
  lemma ReplacePostKeepsOk(posts: seq<Post>, i: nat, p: Post)
    requires PostsOk(posts) && i < |posts|
    requires p.id == posts[i].id && UniqueKeys(p.likes, LikeUser)
    ensures PostsOk(posts[i := p])
  {
    UpdateKeepsUnique(posts, i, p, PostIdOf);
    InUpdate(posts, i, p);
  }

  /**
   * Removing the post at position `i` leaves exactly the posts with other
   * ids, and keeps the collection consistent.
   */
  lemma RemovePostKeepsOthers(posts: seq<Post>, i: nat)
    requires PostsOk(posts) && i < |posts|
    ensures forall p :: p in posts[..i] + posts[i + 1..] <==> p in posts && p.id != posts[i].id
    ensures PostsOk(posts[..i] + posts[i + 1..])
  {
    var r := posts[..i] + posts[i + 1..];
    RemoveAtKeepsUnique(posts, i, PostIdOf);
    forall p ensures p in r <==> p in posts && p.id != posts[i].id {
      if p in r {
        var a :| 0 <= a < |r| && r[a] == p;
        var a' := if a < i then a else a + 1;
        assert posts[a'] == p && a' != i;
      }
      if p in posts && p.id != posts[i].id {
        var b :| 0 <= b < |posts| && posts[b] == p;
        assert b != i;
        if b < i { assert r[b] == p; } else { assert r[b - 1] == p; }
      }
    }
  }

  /**
   * POST api/post. The request's text is not checked: the handler reads
   * the validation result off `req.body`, where none is recorded.
   * `newId` and `now` are the id and date the database assigns.
   */
  method CreatePost(db: Store, me: UserId, text: string, newId: PostId, now: int) returns (res: Response)
    requires db.Valid()
    requires newId !in Keys(db.posts, PostIdOf)
    modifies db`posts
    ensures db.Valid()
    ensures var u := FindUser(db.users, me);
      if u == -1 then res == ServerError && db.posts == old(db.posts)
      else
        var post := Post(newId, me, text, db.users[u].name, db.users[u].avatar, [], [], now);
        db.posts == old(db.posts) + [post] && res == Response(200, PostBody(post))
  {
    var u := FindUser(db.users, me);
    if u == -1 {
      // `user.name` on a null user throws; the catch answers 500
      return ServerError;
    }
    var user := db.users[u];
    var post := Post(newId, me, text, user.name, user.avatar, [], [], now);
    AddKeepsUnique(db.posts, post, PostIdOf);
    db.posts := db.posts + [post];
    res := Response(200, PostBody(post));
  }

  /** GET api/post: every post, newest first. */
  method ListPosts(db: Store) returns (res: Response)
    ensures res.status == 200 && res.body.PostsBody?
    ensures multiset(res.body.posts) == multiset(db.posts)
    ensures NewestFirst(res.body.posts)
  {
    res := Response(200, PostsBody(SortByDateDesc(db.posts)));
  }

  /** GET api/post/:id */
  method GetPost(db: Store, postId: PostId) returns (res: Response)
    ensures res.status == 404 <==> postId !in Keys(db.posts, PostIdOf)
    ensures res.status == 404 ==> res == PostNotFound
    ensures res.status != 404 ==>
      res.status == 200 && res.body.PostBody? && res.body.post in db.posts && res.body.post.id == postId
    ensures res.status != 404 ==> res.body.post == db.posts[FindPost(db.posts, postId)]
  {
    var i := FindPost(db.posts, postId);
    if i == -1 {
      return PostNotFound;
    }
    res := Response(200, PostBody(db.posts[i]));
  }

  /**
   * DELETE api/post/:id. The ownership check reads `post.user` before the
   * null check, so a missing post ends in the catch (500), never in 404.
   */
  method DeletePost(db: Store, me: UserId, postId: PostId) returns (res: Response)
    requires db.Valid()
    modifies db`posts
    ensures db.Valid()
    ensures res.status != 404
    ensures postId !in Keys(old(db.posts), PostIdOf) ==> res == ServerError && db.posts == old(db.posts)
    ensures postId in Keys(old(db.posts), PostIdOf) ==>
      var i := FindPost(old(db.posts), postId);
      if old(db.posts)[i].user != me then res == NotAuthorized && db.posts == old(db.posts)
      else
        && res == Response(200, Msg("Post removed "))
        && db.posts == old(db.posts)[..i] + old(db.posts)[i + 1..]
        && forall p :: p in db.posts <==> p in old(db.posts) && p.id != postId
  {
    var i := FindPost(db.posts, postId);
    if i == -1 {
      // `post.user` on a null post throws; the catch answers 500
      return ServerError;
    }
    var post := db.posts[i];
    if post.user != me {
      return NotAuthorized;
    }
    // the `if (!post)` check that follows cannot fire: `post` was dereferenced above
    RemovePostKeepsOthers(db.posts, i);
    db.posts := db.posts[..i] + db.posts[i + 1..];
    res := Response(200, Msg("Post removed "));
  }

  /** PUT api/post/like/:id */
  method LikePost(db: Store, me: UserId, postId: PostId) returns (res: Response)
    requires db.Valid()
    modifies db`posts
    ensures db.Valid()
    ensures var i := FindPost(old(db.posts), postId);
      if i == -1 then res == PostNotFound && db.posts == old(db.posts)
      else if me in LikeUsers(old(db.posts)[i].likes) then
        res == Response(400, Msg("Post Already Liked")) && db.posts == old(db.posts)
      else
        && db.posts == old(db.posts)[i := Liked(old(db.posts)[i], me)]
        && res == Response(200, LikesBody(Liked(old(db.posts)[i], me).likes))
  {
    var i := FindPost(db.posts, postId);
    if i == -1 {
      return PostNotFound;
    }
    var post := db.posts[i];
    FilterFindsLiker(post.likes, me);
    if |Filter(post.likes, LikedBy(me))| > 0 {
      return Response(400, Msg("Post Already Liked"));
    }
    post := post.(likes := [Like(me)] + post.likes);
    LikeAddsLiker(db.posts[i], me);
    ReplacePostKeepsOk(db.posts, i, post);
    db.posts := db.posts[i := post];
    res := Response(200, LikesBody(post.likes));
  }

  /** PUT api/post/unlike/:id */
  method UnlikePost(db: Store, me: UserId, postId: PostId) returns (res: Response)
    requires db.Valid()
    modifies db`posts
    ensures db.Valid()
    ensures var i := FindPost(old(db.posts), postId);
      if i == -1 then res == PostNotFound && db.posts == old(db.posts)
      else if me !in LikeUsers(old(db.posts)[i].likes) then
        res == Response(400, Msg("Post Has Not Been Liked")) && db.posts == old(db.posts)
      else
        && db.posts == old(db.posts)[i := Unliked(old(db.posts)[i], me)]
        && res == Response(200, LikesBody(Unliked(old(db.posts)[i], me).likes))
  {
    var i := FindPost(db.posts, postId);
    if i == -1 {
      return PostNotFound;
    }
    var post := db.posts[i];
    FilterFindsLiker(post.likes, me);
    if |Filter(post.likes, LikedBy(me))| == 0 {
      return Response(400, Msg("Post Has Not Been Liked"));
    }
    var removeIndex := IndexOf(LikeUsers(post.likes), me);
    post := post.(likes := Splice1(post.likes, removeIndex));
    assert PostsOk(db.posts) && db.posts[i] in db.posts;
    UnlikeRemovesLiker(db.posts[i], me);
    ReplacePostKeepsOk(db.posts, i, post);
    db.posts := db.posts[i := post];
    res := Response(200, LikesBody(post.likes));
  }

  /**
   * POST api/post/comment/:id. As for a post, the text is not checked.
   * A missing user or post is dereferenced and ends in the catch (500).
   */
  method AddComment(db: Store, me: UserId, postId: PostId, text: string, commentId: CommentId, now: int)
    returns (res: Response)
    requires db.Valid()
    modifies db`posts
    ensures db.Valid()
    ensures var u := FindUser(db.users, me);
      var i := FindPost(old(db.posts), postId);
      if u == -1 || i == -1 then res == ServerError && db.posts == old(db.posts)
      else
        var c := Comment(commentId, me, text, db.users[u].name, db.users[u].avatar, now);
        && db.posts == old(db.posts)[i := Commented(old(db.posts)[i], c)]
        && res == Response(200, CommentsBody([c] + old(db.posts)[i].comments))
  {
    var u := FindUser(db.users, me);
    var i := FindPost(db.posts, postId);
    if u == -1 || i == -1 {
      // `user.name` or `post.comments` on null throws; the catch answers 500
      return ServerError;
    }
    var user := db.users[u];
    var c := Comment(commentId, me, text, user.name, user.avatar, now);
    var post := db.posts[i];
    post := post.(comments := [c] + post.comments);
    assert db.posts[i] in db.posts;
    ReplacePostKeepsOk(db.posts, i, post);
    db.posts := db.posts[i := post];
    res := Response(200, CommentsBody(post.comments));
  }

  /**
   * DELETE api/post/comment/:id/:comment_id. The comment is found by id and
   * its author checked, but the position spliced out is that of the first
   * comment by the requester.
   */
  method DeleteComment(db: Store, me: UserId, postId: PostId, commentId: CommentId) returns (res: Response)
    requires db.Valid()
    modifies db`posts
    ensures db.Valid()
    ensures var i := FindPost(old(db.posts), postId);
      if i == -1 then res == ServerError && db.posts == old(db.posts)
      else
        var cs := old(db.posts)[i].comments;
        var found := IndexOf(CommentIds(cs), commentId);
        if found == -1 then res == Response(404, Msg("Comment not found")) && db.posts == old(db.posts)
        else if cs[found].user != me then res == NotAuthorized && db.posts == old(db.posts)
        else
          && db.posts == old(db.posts)[i := Uncommented(old(db.posts)[i], me)]
          && res == Response(200, CommentsBody(Uncommented(old(db.posts)[i], me).comments))
  {
    var i := FindPost(db.posts, postId);
    if i == -1 {
      // `post.comments` on a null post throws; the catch answers 500
      return ServerError;
    }
    var post := db.posts[i];
    var found := IndexOf(CommentIds(post.comments), commentId);
    if found == -1 {
      return Response(404, Msg("Comment not found"));
    }
    if post.comments[found].user != me {
      return NotAuthorized;
    }
    var removeIndex := IndexOf(CommentAuthors(post.comments), me);
    post := post.(comments := Splice1(post.comments, removeIndex));
    assert db.posts[i] in db.posts;
    ReplacePostKeepsOk(db.posts, i, post);
    db.posts := db.posts[i := post];
    res := Response(200, CommentsBody(post.comments));
  }

  /** A second like by the same user is refused and changes nothing. */
  method LikeTwice(db: Store, me: UserId, postId: PostId) returns (first: Response, second: Response)
    requires db.Valid()
    requires postId in Keys(db.posts, PostIdOf)
    modifies db`posts
    ensures second == Response(400, Msg("Post Already Liked"))
    ensures var i := FindPost(old(db.posts), postId);
      first.status == 200 ==> db.posts == old(db.posts)[i := Liked(old(db.posts)[i], me)]
  {
    first := LikePost(db, me, postId);
    var i := FindPost(old(db.posts), postId);
    assert Keys(db.posts, PostIdOf) == Keys(old(db.posts), PostIdOf);
    assert LikeUsers(db.posts[i].likes)[0] == me || me in LikeUsers(db.posts[i].likes);
    second := LikePost(db, me, postId);
  }

  /** Liking and then unliking a post one had not liked restores the store. */
  method LikeThenUnlike(db: Store, me: UserId, postId: PostId) returns (liked: Response, unliked: Response)
    requires db.Valid()
    modifies db`posts
    ensures liked.status == 200 ==> unliked.status == 200 && db.posts == old(db.posts)
  {
    liked := LikePost(db, me, postId);
    if liked.status == 200 {
      var i := FindPost(old(db.posts), postId);
      LikeUnlikeRoundTrip(old(db.posts)[i], me);
      assert Keys(db.posts, PostIdOf) == Keys(old(db.posts), PostIdOf);
      assert LikeUsers(db.posts[i].likes)[0] == me;
    }
    unliked := UnlikePost(db, me, postId);
  }
}
