/**
 * The profile routes (routes/api/profile.js): read a profile, create or
 * update one from a sparse set of fields, add and remove experience and
 * education entries, and delete the whole account. Each private handler
 * receives `me`, the `req.user.id` the auth gate set.
 */
module Profiles {
  import opened Sequences
  import opened Strings
  import opened Db

  const ProfileNotFound := Response(400, Msg("Profile Not Found"))
  const ServerError := Response(500, PlainText("Server Error"))

  /** The request body of POST api/profile; a missing field reads as "". */
  datatype ProfileRequest = ProfileRequest(
    company: string, website: string, location: string, bio: string,
    status: string, githubusername: string, skills: string,
    youtube: string, facebook: string, twitter: string, instagram: string, linkedin: string)

  /** `profileFields`: the keys the update sets; an absent key is None. */
  datatype ProfileFields = ProfileFields(
    user: UserId,
    company: Option<string>, website: Option<string>, location: Option<string>,
    bio: Option<string>, status: Option<string>, githubusername: Option<string>,
    skills: Option<seq<string>>, social: Social)

  /** The request body of PUT api/profile/experience. */
  datatype ExperienceRequest = ExperienceRequest(
    title: string, company: string, location: Option<string>, from: string,
    to: Option<string>, current: Option<bool>, description: Option<string>)

  /** The request body of PUT api/profile/education. */
  datatype EducationRequest = EducationRequest(
    school: string, degree: string, fieldofstudy: string, from: string,
    to: Option<string>, current: Option<bool>, description: Option<string>)

  /** `o` holds `s` when `s` is truthy (non-empty) and is absent otherwise. */
  predicate SetIfGiven(o: Option<string>, s: string)
  {
    (o.Some? <==> s != "") && (o.Some? ==> o.value == s)
  }

  /** A request field as `profileFields` holds it: present when truthy. */
  function Given(s: string): (o: Option<string>)
    ensures SetIfGiven(o, s)
  {
    if s != "" then Some(s) else None
  }

  /** `skills.split(",").map(skill => skill.trim())` */
  function ParseSkills(skills: string): (r: seq<string>)
    ensures |r| == Count(skills, ',') + 1
    ensures forall i :: 0 <= i < |r| ==> ',' !in r[i] && Trimmed(r[i])
    ensures forall i :: 0 <= i < |r| ==> r[i] == Trim(Split(skills, ',')[i])
  {
    var parts := Split(skills, ',');
    var r := seq(|parts|, i requires 0 <= i < |parts| => Trim(parts[i]));
    assert forall i :: 0 <= i < |r| ==> ',' !in r[i] by {
      forall i | 0 <= i < |r| ensures ',' !in r[i] {
        var lead := LeadingSpace(parts[i]);
        SliceLacks(parts[i], lead, lead + |r[i]|, ',');
      }
    }
    r
  }

  /** A comma-separated skills string splits at the comma, keeping the space. */
  lemma SplitSkillsExample()
    ensures Split("go, js", ',') == ["go", " js"]
  {
    var s := "go, js";
    assert s[1..] == "o, js" && s[2..] == ", js" && s[3..] == " js" && s[4..] == "js" && s[5..] == "s";
    assert Split(s[5..], ',') == ["s"];
    assert Split(s[4..], ',') == ["js"];
    assert Split(s[3..], ',') == [" js"];
    assert Split(s[2..], ',') == ["", " js"];
    assert ['o'] + "" == "o" && ['g'] + "o" == "go";
    assert Split(s[1..], ',') == ["o", " js"];
    assert Split(s, ',') == ["go", " js"];
  }

  /** Parsing that string gives the two skill names without the space. */
  lemma ParseSkillsExample()
    ensures ParseSkills("go, js") == ["go", "js"]
  {
    SplitSkillsExample();
    TrimSkillsExample();
    var r := ParseSkills("go, js");
    assert |r| == 2 && r[0] == Trim("go") && r[1] == Trim(" js");
  }

  /** Trimming drops the space before a skill name and leaves a bare name alone. */
  lemma TrimSkillsExample()
    ensures Trim("go") == "go" && Trim(" js") == "js"
  {
    assert LeadingSpace("go") == 0 && TrailingSpace("go") == 0;
    assert " js"[1..] == "js";
    assert LeadingSpace("js") == 0;
    assert LeadingSpace(" js") == 1;
    assert TrailingSpace("js") == 0;
  }

  // The validation messages of each route, in the order its checks are declared.
  const ProfileMsgs := ["Status is required", "Skills is required"]
  const ExperienceMsgs := ["Title is required", "company is required", "Start From date is required"]
  const EducationMsgs := ["School is required", "Degree is required", "Start From date is required",
                          "field of study is required"]

  /** The validation messages of POST api/profile, in declaration order. */
  function ProfileErrors(req: ProfileRequest): (errs: seq<string>)
    ensures errs == [] <==> req.status != "" && req.skills != ""
    ensures req.status == "" ==> errs[0] == "Status is required"
    ensures req.skills == "" ==> errs[|errs| - 1] == "Skills is required"
    ensures "Status is required" in errs <==> req.status == ""
    ensures "Skills is required" in errs <==> req.skills == ""
    ensures |errs| == (if req.status == "" then 1 else 0) + (if req.skills == "" then 1 else 0)
    ensures InOrder(errs, ProfileMsgs)
  {
    var failed := [req.status == "", req.skills == ""];
    SelectedFacts(ProfileMsgs, failed);
    assert CountTrue(failed[1..]) == (if failed[1] then 1 else 0) by {
      assert failed[1..][1..] == [];
    }
    assert ProfileMsgs[0] == "Status is required" && ProfileMsgs[1] == "Skills is required";
    Selected(ProfileMsgs, failed)
  }

  /**
   * The `profileFields` object the handler builds: the user is always the
   * requester, each other key is present exactly when its input is truthy,
   * and `social` is always present with exactly the supplied platforms.
   */
  function FieldsFor(me: UserId, req: ProfileRequest): (pf: ProfileFields)
    ensures pf.user == me
    ensures SetIfGiven(pf.company, req.company) && SetIfGiven(pf.website, req.website)
    ensures SetIfGiven(pf.location, req.location) && SetIfGiven(pf.bio, req.bio)
    ensures SetIfGiven(pf.status, req.status) && SetIfGiven(pf.githubusername, req.githubusername)
    ensures pf.skills.Some? <==> req.skills != ""
    ensures pf.skills.Some? ==> pf.skills.value == ParseSkills(req.skills)
    ensures SetIfGiven(pf.social.youtube, req.youtube) && SetIfGiven(pf.social.facebook, req.facebook)
    ensures SetIfGiven(pf.social.twitter, req.twitter) && SetIfGiven(pf.social.instagram, req.instagram)
    ensures SetIfGiven(pf.social.linkedin, req.linkedin)
  {
    ProfileFields(
      me,
      Given(req.company),
      Given(req.website),
      Given(req.location),
      Given(req.bio),
      Given(req.status),
      Given(req.githubusername),
      if req.skills != "" then Some(ParseSkills(req.skills)) else None,
      SocialFor(req))
  }

  /** `profileFields.social`: exactly the platforms the request names. */
  function SocialFor(req: ProfileRequest): (social: Social)
    ensures SetIfGiven(social.youtube, req.youtube) && SetIfGiven(social.facebook, req.facebook)
    ensures SetIfGiven(social.twitter, req.twitter) && SetIfGiven(social.instagram, req.instagram)
    ensures SetIfGiven(social.linkedin, req.linkedin)
  {
    Social(
      Given(req.youtube),
      Given(req.twitter),
      Given(req.facebook),
      Given(req.linkedin),
      Given(req.instagram))
  }

  /** The handler's construction of `profileFields`, one conditional write at a time. */
  method BuildProfileFields(me: UserId, req: ProfileRequest) returns (pf: ProfileFields)
    ensures pf == FieldsFor(me, req)
  {
    pf := ProfileFields(me, None, None, None, None, None, None, None, NoSocial);
    if req.company != "" { pf := pf.(company := Some(req.company)); }
    if req.website != "" { pf := pf.(website := Some(req.website)); }
    if req.location != "" { pf := pf.(location := Some(req.location)); }
    if req.bio != "" { pf := pf.(bio := Some(req.bio)); }
    if req.status != "" { pf := pf.(status := Some(req.status)); }
    if req.githubusername != "" { pf := pf.(githubusername := Some(req.githubusername)); }
    if req.skills != "" { pf := pf.(skills := Some(ParseSkills(req.skills))); }
    var social := BuildSocial(req);
    pf := pf.(social := social);
  }

  /** The handler's construction of `profileFields.social`. */
  method BuildSocial(req: ProfileRequest) returns (social: Social)
    ensures social == SocialFor(req)
  {
    social := NoSocial;
    if req.youtube != "" { social := social.(youtube := Some(req.youtube)); }
    if req.facebook != "" { social := social.(facebook := Some(req.facebook)); }
    if req.twitter != "" { social := social.(twitter := Some(req.twitter)); }
    if req.instagram != "" { social := social.(instagram := Some(req.instagram)); }
    if req.linkedin != "" { social := social.(linkedin := Some(req.linkedin)); }
  }

  function Override(given: Option<string>, current: Option<string>): Option<string>
  {
    if given.Some? then given else current
  }

  /** A key after `$set`: the given value if there is one, otherwise the old value. */
  predicate Updates(after: Option<string>, given: Option<string>, before: Option<string>)
  {
    (given.Some? ==> after == given) && (given.None? ==> after == before)
  }

  /** `{$set: pf}` applied to an existing profile. */
  function ApplySet(p: Profile, pf: ProfileFields): (q: Profile)
    ensures q.id == p.id && q.user == pf.user && q.social == pf.social
    ensures q.experience == p.experience && q.education == p.education
    ensures Updates(q.company, pf.company, p.company) && Updates(q.website, pf.website, p.website)
    ensures Updates(q.location, pf.location, p.location) && Updates(q.bio, pf.bio, p.bio)
    ensures Updates(q.status, pf.status, p.status) && Updates(q.githubusername, pf.githubusername, p.githubusername)
    ensures pf.skills.Some? ==> q.skills == pf.skills.value
    ensures pf.skills.None? ==> q.skills == p.skills
  {
    p.(user := pf.user,
       company := Override(pf.company, p.company),
       website := Override(pf.website, p.website),
       location := Override(pf.location, p.location),
       bio := Override(pf.bio, p.bio),
       status := Override(pf.status, p.status),
       githubusername := Override(pf.githubusername, p.githubusername),
       skills := if pf.skills.Some? then pf.skills.value else p.skills,
       social := pf.social)
  }

  /** `new Profile(pf)`: the given keys, no experience and no education. */
  function NewProfile(id: ProfileId, pf: ProfileFields): (p: Profile)
    ensures p.id == id && p.user == pf.user && p.social == pf.social
    ensures p.experience == [] && p.education == []
    ensures p.company == pf.company && p.website == pf.website && p.location == pf.location
    ensures p.bio == pf.bio && p.status == pf.status && p.githubusername == pf.githubusername
    ensures pf.skills.Some? ==> p.skills == pf.skills.value
    ensures pf.skills.None? ==> p.skills == []
  {
    Profile(id, pf.user, pf.company, pf.website, pf.location, pf.bio, pf.status,
            pf.githubusername, if pf.skills.Some? then pf.skills.value else [], pf.social, [], [])
  }

  /** The profiles after the create-or-update: update the owner's profile if any, else add one. */
  function Upserted(profiles: seq<Profile>, pf: ProfileFields, newId: ProfileId): (r: seq<Profile>)
    ensures pf.user !in Keys(profiles, ProfileOwner) ==> r == profiles + [NewProfile(newId, pf)]
    ensures pf.user in Keys(profiles, ProfileOwner) ==>
      var i := FindProfile(profiles, pf.user);
      && |r| == |profiles| && r[i] == ApplySet(profiles[i], pf)
      && forall j :: 0 <= j < |r| && j != i ==> r[j] == profiles[j]
  {
    var i := FindProfile(profiles, pf.user);
    if i == -1 then profiles + [NewProfile(newId, pf)] else profiles[i := ApplySet(profiles[i], pf)]
  }

  /**
   * Updating a profile from a request: each scalar key takes the request's
   * value when that is truthy and keeps the old value otherwise; `social` is
   * replaced as a whole; id, owner, experience and education are kept.
   */
  lemma UpdateSetsOnlyGivenKeys(p: Profile, req: ProfileRequest)
    requires req.skills != ""
    ensures var q := ApplySet(p, FieldsFor(p.user, req));
      && q.id == p.id && q.user == p.user
      && q.experience == p.experience && q.education == p.education
      && q.company == (if req.company != "" then Some(req.company) else p.company)
      && q.website == (if req.website != "" then Some(req.website) else p.website)
      && q.location == (if req.location != "" then Some(req.location) else p.location)
      && q.bio == (if req.bio != "" then Some(req.bio) else p.bio)
      && q.status == (if req.status != "" then Some(req.status) else p.status)
      && q.githubusername == (if req.githubusername != "" then Some(req.githubusername) else p.githubusername)
      && q.skills == ParseSkills(req.skills)
      && q.social == FieldsFor(p.user, req).social
  {
  }

  /**
   * The create-or-update keeps at most one profile per user, and afterwards
   * the owner named in the fields has a profile.
   */
  lemma UpsertKeepsOneProfilePerUser(profiles: seq<Profile>, pf: ProfileFields, newId: ProfileId)
    requires ProfilesOk(profiles)
    ensures ProfilesOk(Upserted(profiles, pf, newId))
    ensures pf.user in Keys(Upserted(profiles, pf, newId), ProfileOwner)
    ensures |Upserted(profiles, pf, newId)| == |profiles| + (if pf.user in Keys(profiles, ProfileOwner) then 0 else 1)
  {
    var i := FindProfile(profiles, pf.user);
    var r := Upserted(profiles, pf, newId);
    if i == -1 {
      AddKeepsUnique(profiles, NewProfile(newId, pf), ProfileOwner);
      assert Keys(r, ProfileOwner)[|profiles|] == pf.user;
    } else {
      UpdateKeepsUnique(profiles, i, ApplySet(profiles[i], pf), ProfileOwner);
      assert Keys(r, ProfileOwner)[i] == pf.user;
    }
  }

  /** Sending the same fields twice leaves the profiles as the first send did. */
  lemma UpsertIdempotent(profiles: seq<Profile>, pf: ProfileFields, id1: ProfileId, id2: ProfileId)
    ensures Upserted(Upserted(profiles, pf, id1), pf, id2) == Upserted(profiles, pf, id1)
  {
    var once := Upserted(profiles, pf, id1);
    var i := FindProfile(profiles, pf.user);
    if i == -1 {
      assert Keys(once, ProfileOwner) == Keys(profiles, ProfileOwner) + [pf.user];
      assert FindProfile(once, pf.user) == |profiles|;
    } else {
      assert Keys(once, ProfileOwner)[..i] == Keys(profiles, ProfileOwner)[..i];
      IndexOfAt(Keys(once, ProfileOwner), pf.user, i);
    }
  }

  /**
   * The lookup of GET api/profile/me and GET api/profile/user/:user_id:
   * the first profile of `user`, or 400 "Profile Not Found".
   */
  function LookupProfile(profiles: seq<Profile>, user: UserId): (res: Response)
    ensures res == ProfileNotFound <==> user !in Keys(profiles, ProfileOwner)
    ensures res != ProfileNotFound ==>
      res.status == 200 && res.body.ProfileBody? && res.body.profile in profiles && res.body.profile.user == user
    ensures res != ProfileNotFound ==> res.body.profile == profiles[FindProfile(profiles, user)]
  {
    var i := FindProfile(profiles, user);
    if i == -1 then ProfileNotFound else Response(200, ProfileBody(profiles[i]))
  }

  /** GET api/profile/me */
  method GetOwnProfile(db: Store, me: UserId) returns (res: Response)
    ensures res == LookupProfile(db.profiles, me)
  {
    res := LookupProfile(db.profiles, me);
  }

  /** GET api/profile/user/:user_id */
  method GetProfileByUser(db: Store, userId: UserId) returns (res: Response)
    ensures res == LookupProfile(db.profiles, userId)
  {
    res := LookupProfile(db.profiles, userId);
  }

  /**
   * After the create-or-update, looking up the owner finds the profile the
   * handler stored: the updated one, or the new one.
   */
  lemma UpsertedProfileIsFound(profiles: seq<Profile>, pf: ProfileFields, newId: ProfileId)
    ensures var i := FindProfile(profiles, pf.user);
      LookupProfile(Upserted(profiles, pf, newId), pf.user)
        == Response(200, ProfileBody(if i == -1 then NewProfile(newId, pf) else ApplySet(profiles[i], pf)))
  {
    var i := FindProfile(profiles, pf.user);
    var r := Upserted(profiles, pf, newId);
    if i == -1 {
      assert Keys(r, ProfileOwner) == Keys(profiles, ProfileOwner) + [pf.user];
      IndexOfAt(Keys(r, ProfileOwner), pf.user, |profiles|);
    } else {
      assert Keys(r, ProfileOwner)[..i] == Keys(profiles, ProfileOwner)[..i];
      IndexOfAt(Keys(r, ProfileOwner), pf.user, i);
    }
  }

  /** GET api/profile: every profile, in store order. */
  method ListProfiles(db: Store) returns (res: Response)
    ensures res.status == 200 && res.body.ProfilesBody?
    ensures multiset(res.body.profiles) == multiset(db.profiles)
  {
    res := Response(200, ProfilesBody(db.profiles));
  }

  /** POST api/profile. `newId` is the id the database assigns to a new profile. */
  method UpsertProfile(db: Store, me: UserId, req: ProfileRequest, newId: ProfileId) returns (res: Response)
    requires db.Valid()
    modifies db`profiles
    ensures db.Valid()
    ensures ProfileErrors(req) != [] ==>
      res == Response(400, Errors(ProfileErrors(req))) && db.profiles == old(db.profiles)
    ensures ProfileErrors(req) == [] ==>
      && db.profiles == Upserted(old(db.profiles), FieldsFor(me, req), newId)
      && res == LookupProfile(db.profiles, me)
  {
    var errs := ProfileErrors(req);
    if errs != [] {
      return Response(400, Errors(errs));
    }
    var pf := BuildProfileFields(me, req);
    UpsertKeepsOneProfilePerUser(db.profiles, pf, newId);
    UpsertedProfileIsFound(db.profiles, pf, newId);
    var i := FindProfile(db.profiles, me);
    if i != -1 {
      // Profile.findOneAndUpdate({user}, {$set: profileFields}, {new: true})
      var updated := ApplySet(db.profiles[i], pf);
      db.profiles := db.profiles[i := updated];
      return Response(200, ProfileBody(updated));
    }
    var created := NewProfile(newId, pf);
    db.profiles := db.profiles + [created];
    res := Response(200, ProfileBody(created));
  }

  /** The validation messages of PUT api/profile/experience, in declaration order. */
  function ExperienceErrors(req: ExperienceRequest): (errs: seq<string>)
    ensures errs == [] <==> req.title != "" && req.company != "" && req.from != ""
    ensures "Title is required" in errs <==> req.title == ""
    ensures "company is required" in errs <==> req.company == ""
    ensures "Start From date is required" in errs <==> req.from == ""
    ensures |errs| == (if req.title == "" then 1 else 0) + (if req.company == "" then 1 else 0)
                      + (if req.from == "" then 1 else 0)
    ensures InOrder(errs, ExperienceMsgs)
  {
    var failed := [req.title == "", req.company == "", req.from == ""];
    SelectedFacts(ExperienceMsgs, failed);
    assert CountTrue(failed[2..]) == (if failed[2] then 1 else 0) by {
      assert failed[2..][1..] == [];
    }
    assert CountTrue(failed[1..]) == (if failed[1] then 1 else 0) + (if failed[2] then 1 else 0) by {
      assert failed[1..][1..] == failed[2..];
    }
    assert ExperienceMsgs[0] == "Title is required" && ExperienceMsgs[1] == "company is required";
    assert ExperienceMsgs[2] == "Start From date is required";
    Selected(ExperienceMsgs, failed)
  }

  /** The validation messages of PUT api/profile/education, in declaration order. */
  function EducationErrors(req: EducationRequest): (errs: seq<string>)
    ensures errs == [] <==> req.school != "" && req.degree != "" && req.from != "" && req.fieldofstudy != ""
    ensures "School is required" in errs <==> req.school == ""
    ensures "Degree is required" in errs <==> req.degree == ""
    ensures "Start From date is required" in errs <==> req.from == ""
    ensures "field of study is required" in errs <==> req.fieldofstudy == ""
    ensures |errs| == (if req.school == "" then 1 else 0) + (if req.degree == "" then 1 else 0)
                      + (if req.from == "" then 1 else 0) + (if req.fieldofstudy == "" then 1 else 0)
    ensures InOrder(errs, EducationMsgs)
  {
    var failed := [req.school == "", req.degree == "", req.from == "", req.fieldofstudy == ""];
    SelectedFacts(EducationMsgs, failed);
    assert CountTrue(failed[3..]) == (if failed[3] then 1 else 0) by {
      assert failed[3..][1..] == [];
    }
    assert CountTrue(failed[2..]) == (if failed[2] then 1 else 0) + (if failed[3] then 1 else 0) by {
      assert failed[2..][1..] == failed[3..];
    }
    assert CountTrue(failed[1..]) == (if failed[1] then 1 else 0) + (if failed[2] then 1 else 0) + (if failed[3] then 1 else 0) by {
      assert failed[1..][1..] == failed[2..];
    }
    assert EducationMsgs[0] == "School is required" && EducationMsgs[1] == "Degree is required";
    assert EducationMsgs[2] == "Start From date is required" && EducationMsgs[3] == "field of study is required";
    Selected(EducationMsgs, failed)
  }

  /**
   * PUT api/profile/experience. `entryId` is the id the database assigns to
   * the new entry. Without a profile the handler dereferences null (500).
   */
  method AddExperience(db: Store, me: UserId, req: ExperienceRequest, entryId: EntryId) returns (res: Response)
    requires db.Valid()
    modifies db`profiles
    ensures db.Valid()
    ensures ExperienceErrors(req) != [] ==>
      res == Response(400, Errors(ExperienceErrors(req))) && db.profiles == old(db.profiles)
    ensures ExperienceErrors(req) == [] ==>
      var i := FindProfile(old(db.profiles), me);
      if i == -1 then res == ServerError && db.profiles == old(db.profiles)
      else
        var e := Experience(entryId, req.title, req.company, req.location, req.from, req.to, req.current, req.description);
        var p := old(db.profiles)[i].(experience := [e] + old(db.profiles)[i].experience);
        db.profiles == old(db.profiles)[i := p] && res == Response(200, ProfileBody(p))
  {
    var errs := ExperienceErrors(req);
    if errs != [] {
      return Response(400, Errors(errs));
    }
    var e := Experience(entryId, req.title, req.company, req.location, req.from, req.to, req.current, req.description);
    var i := FindProfile(db.profiles, me);
    if i == -1 {
      return ServerError;
    }
    var profile := db.profiles[i];
    profile := profile.(experience := [e] + profile.experience);
    UpdateKeepsUnique(db.profiles, i, profile, ProfileOwner);
    db.profiles := db.profiles[i := profile];
    res := Response(200, ProfileBody(profile));
  }

  /**
   * DELETE api/profile/experience/:exp_id: splice at the entry's `indexOf`.
   * An id that is present removes its first entry; an absent id gives -1,
   * which removes the last entry, and no not-found is reported.
   */
  method RemoveExperience(db: Store, me: UserId, expId: EntryId) returns (res: Response)
    requires db.Valid()
    modifies db`profiles
    ensures db.Valid()
    ensures var i := FindProfile(old(db.profiles), me);
      if i == -1 then res == ServerError && db.profiles == old(db.profiles)
      else
        var ex := old(db.profiles)[i].experience;
        var p := old(db.profiles)[i].(experience := Splice1(ex, IndexOf(Keys(ex, ExperienceIdOf), expId)));
        db.profiles == old(db.profiles)[i := p] && res == Response(200, ProfileBody(p))
  {
    var i := FindProfile(db.profiles, me);
    if i == -1 {
      return ServerError;
    }
    var profile := db.profiles[i];
    var removeIndex := IndexOf(Keys(profile.experience, ExperienceIdOf), expId);
    profile := profile.(experience := Splice1(profile.experience, removeIndex));
    UpdateKeepsUnique(db.profiles, i, profile, ProfileOwner);
    db.profiles := db.profiles[i := profile];
    res := Response(200, ProfileBody(profile));
  }

  /** PUT api/profile/education; as for experience. */
  method AddEducation(db: Store, me: UserId, req: EducationRequest, entryId: EntryId) returns (res: Response)
    requires db.Valid()
    modifies db`profiles
    ensures db.Valid()
    ensures EducationErrors(req) != [] ==>
      res == Response(400, Errors(EducationErrors(req))) && db.profiles == old(db.profiles)
    ensures EducationErrors(req) == [] ==>
      var i := FindProfile(old(db.profiles), me);
      if i == -1 then res == ServerError && db.profiles == old(db.profiles)
      else
        var e := Education(entryId, req.school, req.degree, req.fieldofstudy, req.from, req.to, req.current, req.description);
        var p := old(db.profiles)[i].(education := [e] + old(db.profiles)[i].education);
        db.profiles == old(db.profiles)[i := p] && res == Response(200, ProfileBody(p))
  {
    var errs := EducationErrors(req);
    if errs != [] {
      return Response(400, Errors(errs));
    }
    var e := Education(entryId, req.school, req.degree, req.fieldofstudy, req.from, req.to, req.current, req.description);
    var i := FindProfile(db.profiles, me);
    if i == -1 {
      return ServerError;
    }
    var profile := db.profiles[i];
    profile := profile.(education := [e] + profile.education);
    UpdateKeepsUnique(db.profiles, i, profile, ProfileOwner);
    db.profiles := db.profiles[i := profile];
    res := Response(200, ProfileBody(profile));
  }

  /** DELETE api/profile/education/:edu_id; as for experience, including the -1 case. */
  method RemoveEducation(db: Store, me: UserId, eduId: EntryId) returns (res: Response)
    requires db.Valid()
    modifies db`profiles
    ensures db.Valid()
    ensures var i := FindProfile(old(db.profiles), me);
      if i == -1 then res == ServerError && db.profiles == old(db.profiles)
      else
        var ed := old(db.profiles)[i].education;
        var p := old(db.profiles)[i].(education := Splice1(ed, IndexOf(Keys(ed, EducationIdOf), eduId)));
        db.profiles == old(db.profiles)[i := p] && res == Response(200, ProfileBody(p))
  {
    var i := FindProfile(db.profiles, me);
    if i == -1 {
      return ServerError;
    }
    var profile := db.profiles[i];
    var removeIndex := IndexOf(Keys(profile.education, EducationIdOf), eduId);
    profile := profile.(education := Splice1(profile.education, removeIndex));
    UpdateKeepsUnique(db.profiles, i, profile, ProfileOwner);
    db.profiles := db.profiles[i := profile];
    res := Response(200, ProfileBody(profile));
  }

  /**
   * The posts left after `Post.deleteMany({user})`: those by other users, in
   * their order. Post ids stay unique, and a user with no posts changes nothing.
   */
  function DeletePostsBy(posts: seq<Post>, user: UserId): (r: seq<Post>)
    ensures forall p :: p in r <==> p in posts && p.user != user
    ensures |r| <= |posts|
    ensures UniqueKeys(posts, PostIdOf) ==> UniqueKeys(r, PostIdOf)
    ensures (forall p | p in posts :: p.user != user) ==> r == posts
  {
    var keep := (p: Post) => p.user != user;
    var r := Filter(posts, keep);
    assert UniqueKeys(posts, PostIdOf) ==> UniqueKeys(r, PostIdOf) by {
      if UniqueKeys(posts, PostIdOf) {
        FilterKeepsUnique(posts, keep, PostIdOf);
      }
    }
    FilterKeepsAll(posts, keep);
    r
  }

  /**
   * After deleting an account the requester has no posts, no profile and no
   * user record, and every other user's posts, profile and record are still
   * there.
   */
  lemma DeleteAccountErasesOnlyRequester(users: seq<User>, profiles: seq<Profile>, posts: seq<Post>, me: UserId)
    requires UsersOk(users) && ProfilesOk(profiles)
    ensures forall p :: p in DeletePostsBy(posts, me) <==> p in posts && p.user != me
    ensures forall p :: p in RemoveFirstWhere(profiles, ProfileOwner, me) <==> p in profiles && p.user != me
    ensures forall u :: u in RemoveFirstWhere(users, UserIdOf, me) <==> u in users && u.id != me
  {
    RemoveFirstErases(profiles, ProfileOwner, me);
    RemoveFirstErases(users, UserIdOf, me);
  }

  /** DELETE api/profile: the requester's posts, then profile, then user record. */
  method DeleteAccount(db: Store, me: UserId) returns (res: Response)
    requires db.Valid()
    modifies db
    ensures db.Valid()
    ensures db.posts == DeletePostsBy(old(db.posts), me)
    ensures db.profiles == RemoveFirstWhere(old(db.profiles), ProfileOwner, me)
    ensures db.users == RemoveFirstWhere(old(db.users), UserIdOf, me)
    ensures res == Response(200, Msg("User Deleted"))
  {
    db.posts := DeletePostsBy(db.posts, me);
    RemoveFirstKeepsUnique(db.profiles, ProfileOwner, me, ProfileOwner);
    db.profiles := RemoveFirstWhere(db.profiles, ProfileOwner, me);
    RemoveFirstKeepsUnique(db.users, UserIdOf, me, UserIdOf);
    RemoveFirstKeepsUnique(db.users, UserIdOf, me, UserEmail);
    db.users := RemoveFirstWhere(db.users, UserIdOf, me);
    res := Response(200, Msg("User Deleted"));
  }
}
