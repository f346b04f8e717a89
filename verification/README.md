# DevConnect API core in Dafny

DevConnect is a small developer network: people register, receive a JSON Web
Token, keep a profile (status, skills, social links, experience and
education entries), and write posts that others like and comment on. This
project models the server side of that: the token gate that guards the
private routes, registration, the post routes and the profile routes. Each
one is a handler over one store.

- `Db.Store` is a class with three fields: `users`, `profiles` and `posts`.
  Each field is a sequence of documents in insertion order.
- Handlers are methods that take the store. Each names the collection it may
  change in `modifies`, and each keeps the store invariant `Valid()`:
  - user ids and emails are unique;
  - there is at most one profile per user;
  - post ids are unique, and no user likes a post twice.
- Each handler returns a `Response`: an HTTP status and a body. Bodies are a
  `{msg}` object, an `{errors: [...]}` list, a bare JSON string, plain text,
  a token or a document.
- A lookup by id or owner (`findById`, `findOne`) picks the first matching
  document. `findOneAndRemove` drops that document, and `deleteMany` filters
  the collection.
- Where a handler dereferences a missing document, the JavaScript
  `TypeError` lands in the handler's `catch`. The model answers the same 500
  that the `catch` sends.

The model follows the code as written, including three behaviours the route
comments do not describe. Each is stated as a proved property:

- Deleting a comment checks the comment named in the URL, but splices out
  the requester's newest comment. `Posts.UncommentHitsNamedIff` says when
  these differ, and `Posts.UncommentCanMissNamed` gives a concrete post where
  they do.
- Removing an experience or education entry whose id is absent splices at
  index -1, which removes the last entry (`Sequences.SpliceAtMissingDropsLast`).
- `DELETE api/post/:id` reads `post.user` before it checks for a missing
  post, so it never answers 404 for a well-formed id (`Posts.DeletePost`).
  A malformed id still gets 404 from the `catch`; see the line on
  `ObjectId` errors under "Left out".

Two handlers also read the validation result off `req.body`: creating a post
and commenting. That result never records an error, so the handler does not
reject a post or comment with empty text. Whether the save then accepts it
depends on the Post schema, which is not part of this model.

Foreign code appears as function-valued parameters:

- the email validator, the gravatar URL builder, bcrypt's salt generator and
  hash, and the JWT signer (`Users.Libraries`);
- the JWT verifier (`Auth.AuthGate`).

Fresh document ids, entry ids and creation dates are parameters of the
handlers. The secret read from the configuration is a parameter too.

## Model

| member | source | states |
|---|---|---|
| Auth.AuthGate | middleware/auth.js:4-28 | the next handler runs exactly when the `x-auth-token` header is present, non-empty and verifies, and then `req.user` is the token's user; every refusal is 401, "No token" when the header is missing or empty and "Token Invalid" when verification fails |
| Users.RegisterErrors | routes/api/users.js:20-32 | there is no error exactly when the name is non-empty, the email is valid and the password has at least 6 characters; each of the three messages is in the list exactly when its check fails, there is one message per failed check, and they come in declaration order (name, email, password) |
| Users.IssueToken | routes/api/users.js:68-74 | for every verifier that decodes what the signer signs with the one-hour lifetime, the issued token decodes, under the same secret, to the payload `{user: {id}}` of the new user |
| Users.Register | routes/api/users.js:17-87 | a validation failure gives 400 with the messages and no change; a known email gives 400 "User already exists" and no change; otherwise one user is appended with the gravatar avatar and the password replaced by its bcrypt hash with a 10-round salt, and the body is the token for the new id signed for 3600 seconds; ids and emails stay unique |
| Users.IssuedTokenPassesGate | routes/api/users.js:68-79 | assuming the verifier decodes, under the same secret, every payload the signer signs with the one-hour lifetime, and that the token is non-empty, the token issued at registration passes the gate as the new user |
| Users.RegisterTwice | routes/api/users.js:38-43 | registering the same valid request twice: the second attempt is refused with "User already exists", and the users grow by at most one |
| Sequences.SelectedFacts | routes/api/users.js:28-31 | `validationResult(req).array()` over checks with distinct messages: one message per failed check, a message is present exactly when its check fails, and the messages keep the order the checks are declared in |
| Db.FindUser | routes/api/post.js:26 | `User.findById`: -1 exactly when no user has the id; otherwise the position of the first user with that id |
| Db.FindPost | routes/api/post.js:74 | `Post.findById`: -1 exactly when no post has the id; otherwise the position of the first post with that id |
| Db.FindProfile | routes/api/profile.js:24-26 | `Profile.findOne({user})`: -1 exactly when no profile belongs to the user; otherwise the position of the first profile owned by that user |
| Sequences.IndexOf | routes/api/post.js:174-176 | `indexOf`: -1 exactly when the value is absent, otherwise the position of its first occurrence |
| Sequences.Splice1 | routes/api/post.js:179 | `splice(start, 1)`: an index inside the array removes that element; -1 removes the last element; an index past the end removes nothing |
| Sequences.Filter | routes/api/post.js:134-136 | `filter`: the result holds exactly the elements that pass the test, and it is no longer than the input |
| Sequences.RemoveFirstWhere | routes/api/profile.js:175-177 | `findOneAndRemove`: every remaining document was in the collection |
| Sequences.RemoveFirstErases | routes/api/profile.js:175-177 | when keys are unique, removing the document with a key leaves exactly the documents with other keys |
| Sequences.FilterKeepsUnique | routes/api/profile.js:173 | `deleteMany` keeps ids unique |
| Sequences.SpliceAtIndexOfRemovesFirst | routes/api/post.js:174-179 | splicing at the `indexOf` of a present key removes exactly the first element with that key |
| Sequences.SpliceAtMissingDropsLast | routes/api/profile.js:250-253 | splicing at the `indexOf` of an absent key removes the last element |
| Strings.Split | routes/api/profile.js:83 | `split(",")`: one more piece than there are commas, no piece contains a comma, and joining the pieces with commas gives back the input |
| Strings.Trim | routes/api/profile.js:83 | `trim()`: neither end of the result is whitespace; the result is the input after its leading whitespace, and everything after the result is whitespace |
| Posts.CreatePost | routes/api/post.js:16-46 | with no user record the answer is 500 and nothing changes; otherwise the post is appended with the author's name and avatar, no likes and no comments; the text is not validated |
| Posts.ListPosts | routes/api/post.js:54-63 | 200 with every stored post exactly once (a permutation), newest first |
| Posts.InsertByDate | routes/api/post.js:57 | the result is one longer than the input, and its head is the new post or the old head |
| Posts.InsertKeepsNewestFirst | routes/api/post.js:57 | inserting into a newest-first sequence keeps it newest-first |
| Posts.InsertAddsOne | routes/api/post.js:57 | inserting adds exactly the new post to the multiset |
| Posts.SortByDateDesc | routes/api/post.js:57 | `sort({date: -1})`: newest first and a permutation of the input |
| Posts.GetPost | routes/api/post.js:71-88 | 404 "Post not found" exactly when no post has the id; otherwise 200 with the first stored post of that id, as `findById` gives |
| Posts.DeletePost | routes/api/post.js:96-118 | never 404 for a well-formed id; a missing post gives 500; a post by someone else gives 401 and no change; otherwise exactly that post is removed, the others stay in order, and the answer is "Post removed " |
| Posts.FilterFindsLiker | routes/api/post.js:134-137 | the like filter finds something exactly when the user is among the likers |
| Posts.LikePost | routes/api/post.js:126-151 | an unknown post gives 404; a second like gives 400 "Post Already Liked" and no change; otherwise the like is put in front and the likes are returned; likers stay unique |
| Posts.Liked | routes/api/post.js:141 | `likes.unshift({user})`: one more like, the user's in front, the old likes after it unchanged, and every other field of the post kept |
| Posts.Unliked | routes/api/post.js:174-179 | splicing at the user's `indexOf` among the likers: one like fewer when the user is a liker; when not, and there are likes, the last like is dropped; every other field of the post kept |
| Posts.LikeAddsLiker | routes/api/post.js:141 | a new like puts exactly that user in front of the likers and keeps likers unique |
| Posts.UnlikePost | routes/api/post.js:159-190 | an unknown post gives 404; a user who has not liked the post gets 400 "Post Has Not Been Liked" and no change; otherwise that user's like is spliced out and the likes are returned |
| Posts.UnlikeRemovesLiker | routes/api/post.js:174-179 | unliking removes exactly the user's like: one fewer like, the others kept in order, the user no longer a liker |
| Posts.LikeUnlikeRoundTrip | routes/api/post.js:141-179 | liking and then unliking gives back the post as it was |
| Posts.LikeTwice | routes/api/post.js:134-141 | liking an existing post twice: the second answer is "Post Already Liked", and after a successful first like the store is exactly what that like made it: the user in front of the post's likes, nothing else changed |
| Posts.LikeThenUnlike | routes/api/post.js:126-190 | a successful like followed by an unlike succeeds and restores the posts |
| Posts.AddComment | routes/api/post.js:198-230 | a missing user or post gives 500 and no change; otherwise the comment, with the author's name and avatar, goes in front and the comments are returned; the text is not validated |
| Posts.Commented | routes/api/post.js:219 | `comments.unshift(newComment)`: one more comment, the new one in front, the old comments after it unchanged, and every other field of the post kept |
| Posts.Uncommented | routes/api/post.js:256-261 | splicing at the user's `indexOf` among the comment authors: one comment fewer when the user has commented; when not, and there are comments, the last comment is dropped; every other field of the post kept |
| Posts.DeleteComment | routes/api/post.js:238-270 | a missing post gives 500; an unknown comment id gives 404; a comment by someone else gives 401; otherwise the requester's first comment is spliced out and the comments are returned |
| Posts.UncommentRemovesNewestOwn | routes/api/post.js:256-261 | the removed comment is the first (newest) one by the requester, and the others stay in order |
| Posts.UncommentHitsNamedIff | routes/api/post.js:242-261 | the named comment is the one removed exactly when the requester has no newer comment on the post; otherwise an earlier position is removed |
| Posts.UncommentCanMissNamed | routes/api/post.js:242-261 | a concrete post with two comments by one user: asking to delete the older comment deletes the newer one |
| Posts.ReplacePostKeepsOk | routes/api/post.js:141-142 | saving a post under its own id, with unique likers, keeps the collection consistent |
| Posts.RemovePostKeepsOthers | routes/api/post.js:109 | removing one post leaves exactly the posts with other ids and keeps the collection consistent |
| Profiles.ProfileErrors | routes/api/profile.js:48-57 | there is no error exactly when status and skills are both given; each message is in the list exactly when its field is missing, one message per missing field, status before skills |
| Profiles.ParseSkills | routes/api/profile.js:82-84 | one skill per comma-separated piece, none containing a comma, each trimmed |
| Profiles.SplitSkillsExample | routes/api/profile.js:83 | "go, js" splits into "go" and " js" |
| Profiles.TrimSkillsExample | routes/api/profile.js:83 | trimming leaves "go" alone and turns " js" into "js" |
| Profiles.ParseSkillsExample | routes/api/profile.js:83 | "go, js" gives the skills "go" and "js" |
| Profiles.FieldsFor | routes/api/profile.js:74-91 | the user is the requester; each other key is present exactly when its request field is truthy, and then holds it; skills are the parsed list; social holds exactly the given platforms |
| Profiles.BuildProfileFields | routes/api/profile.js:74-91 | the step-by-step construction yields the fields above |
| Profiles.SocialFor | routes/api/profile.js:86-91 | `social` holds youtube, facebook, twitter, instagram and linkedin each exactly when the request gives it, and then the request's value |
| Profiles.BuildSocial | routes/api/profile.js:86-91 | the step-by-step construction of `social` yields exactly the given platforms |
| Profiles.UpdateSetsOnlyGivenKeys | routes/api/profile.js:97-101 | the `$set` update replaces only the given keys: company, website, location, bio, status and GitHub user name each take the request's value when it is truthy and keep the old value otherwise; skills become the parsed list; id, owner, experience and education are kept, and `social` is replaced whole |
| Profiles.ApplySet | routes/api/profile.js:97-101 | `findOneAndUpdate` with `$set`: company, website, location, bio, status and GitHub user name take the given value and keep the old one otherwise; skills likewise; the owner and `social` are set; id, experience and education are kept |
| Profiles.NewProfile | routes/api/profile.js:106 | `new Profile(profileFields)`: the given id, the fields as built, empty experience and education, and no skills when none were given |
| Profiles.Upserted | routes/api/profile.js:94-110 | without a profile for the owner, the new profile is appended; with one, exactly the owner's first profile is updated by `$set` and every other profile is unchanged |
| Profiles.UpsertKeepsOneProfilePerUser | routes/api/profile.js:94-110 | create-or-update keeps one profile per user and leaves the requester with a profile; the count grows only when there was none |
| Profiles.UpsertIdempotent | routes/api/profile.js:94-110 | sending the same fields twice leaves the profiles as the first send did |
| Profiles.UpsertedProfileIsFound | routes/api/profile.js:97-109 | after create-or-update, looking up the owner finds the updated or the new profile |
| Profiles.UpsertProfile | routes/api/profile.js:43-116 | a validation failure gives 400 and no change; otherwise the owner's profile is updated, or a new one is appended, and returned; one profile per user is kept |
| Profiles.LookupProfile | routes/api/profile.js:24-30 | 400 "Profile Not Found" exactly when the user has no profile; otherwise 200 with the first stored profile the user owns, as `findOne` gives |
| Profiles.GetOwnProfile | routes/api/profile.js:19-36 | answers the lookup for the requester |
| Profiles.ListProfiles | routes/api/profile.js:124-133 | 200 with every stored profile exactly once (a permutation of the store) |
| Profiles.GetProfileByUser | routes/api/profile.js:141-162 | answers the lookup for the user in the URL |
| Profiles.ExperienceErrors | routes/api/profile.js:195-204 | there is no error exactly when title, company and start date are given; each message is in the list exactly when its field is missing, one message per missing field, in declaration order |
| Profiles.AddExperience | routes/api/profile.js:190-237 | a validation failure gives 400; without a profile the answer is 500; otherwise the entry goes in front of the experience, nothing else changes, and the profile is returned |
| Profiles.RemoveExperience | routes/api/profile.js:244-261 | without a profile the answer is 500; otherwise the experience is spliced at the `indexOf` of the id, so an absent id removes the last entry, and the profile is returned |
| Profiles.EducationErrors | routes/api/profile.js:274-285 | there is no error exactly when school, degree, start date and field of study are given; each message is in the list exactly when its field is missing, one message per missing field, in declaration order |
| Profiles.AddEducation | routes/api/profile.js:269-318 | as for experience, with the education list |
| Profiles.RemoveEducation | routes/api/profile.js:325-342 | as for experience, with the education list |
| Profiles.DeletePostsBy | routes/api/profile.js:173 | `Post.deleteMany({user})`: exactly the posts by other users remain, none is added, post ids stay unique, and a user with no posts leaves the posts as they were |
| Profiles.DeleteAccountErasesOnlyRequester | routes/api/profile.js:170-184 | after account deletion the requester has no posts, profile or user record, and everything of every other user is still there |
| Profiles.DeleteAccount | routes/api/profile.js:170-184 | the requester's posts are filtered out, their profile and user record removed, and the answer is "User Deleted"; the store stays consistent |

## Left out

- The GitHub repository proxy (routes/api/profile.js:350-374): it is a call to
  an outside HTTP service, not part of this model.
- `populate("user", ["name", "avatar"])`: the joined name and avatar are not
  modelled. A profile answer carries the owner's id only.
- Ids are strings, so every id is well formed. The `err.kind == "ObjectId"`
  branches are not modelled: the 404s in post.js and the 400
  "IProfile Not Found" in profile.js.
- Storage failures and the 500 they cause are not modelled. The only 500s
  modelled are those from dereferencing a missing document.
- An error passed to the `jwt.sign` callback (routes/api/users.js:75-76) is
  not modelled. Signing always yields a token.
- `post.save()` at routes/api/post.js:262 is not awaited. The model applies
  the save before the response.
- The document schemas (models/User, models/Profile, models/Post) are not part
  of this model. Their defaults and schema validation are therefore left
  out; the creation date is a parameter.
- Requests are sequential. Concurrent handlers and their interleavings are
  not modelled.
- `console.log` and `console.error` output is left out.
- Auth.AuthGate: a verified token whose payload has no `user` sets
  `req.user` to undefined. The payload type here always carries a user.
- Users.Register: it does not establish that the stored hash differs from
  the plain password, because the hash function is a parameter.
- String lengths count Unicode scalar values. The password-length check
  counts characters the same way.
- `Errors` keeps only the `msg` of each entry of `errors.array()`. The
  `value`, `param` and `location` fields are left out, so the model does not
  show that a 400 body echoes the rejected value, such as a too-short
  password (routes/api/users.js:31).
- Missing request fields and empty strings are the same value (""). Fields
  that are not strings (arrays, numbers) are not modelled.
