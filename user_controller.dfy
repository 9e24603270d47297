/** The profile handlers, over the user collection held in memory. The User
    schema is not part of this model: its update validators are a parameter,
    and of its indexes only the unique ones on `username` and `email` are
    modelled. Passwords and the other fields of a user are left out. */
module UserController {
  import opened Js
  import opened ObjectIds
  import opened Http

  /** A stored user; `bio` is `None` while unset or null. */
  datatype User = User(id: ObjectId, username: string, email: string, bio: Option<string>)

  /** The `updateData` of `updateProfile`: the paths it sets. `bio` is
      `Some(None)` when the body sets it to null. */
  datatype ProfilePatch = ProfilePatch(username: Option<string>, email: Option<string>, bio: Option<Option<string>>)

  /** `if (username)`, `if (email)` and `if (bio !== undefined)`: username and
      email are copied only when truthy, bio whenever it is sent, null and ""
      included. */
  function ProfilePatchOf(b: ProfileBody): (p: ProfilePatch)
    ensures CopiedUnlessFalsy(p.username, b.username, {""})
    ensures CopiedUnlessFalsy(p.email, b.email, {""})
    ensures p.bio.None? <==> b.bio.Undefined?
    ensures b.bio.Null? ==> p.bio == Some(None)
    ensures b.bio.Present? ==> p.bio == Some(Some(b.bio.value))
  {
    ProfilePatch(
      if StringTruthy(b.username) then Some(b.username.value) else None,
      if StringTruthy(b.email) then Some(b.email.value) else None,
      match b.bio
      case Undefined => None
      case Null => Some(None)
      case Present(s) => Some(Some(s)))
  }

  /** The user document after `$set` of the patch; the id never changes. */
  function ApplyProfile(u: User, p: ProfilePatch): (v: User)
    ensures v.id == u.id
  {
    User(u.id,
         if p.username.Some? then p.username.value else u.username,
         if p.email.Some? then p.email.value else u.email,
         if p.bio.Some? then p.bio.value else u.bio)
  }

  /** What a body does to a profile: a missing or empty username or email
      keeps the stored one, any sent bio replaces the stored one (null and ""
      clear it), and a missing bio keeps it. */
  lemma ProfileUpdateRules(u: User, b: ProfileBody)
    ensures var v := ApplyProfile(u, ProfilePatchOf(b));
      && v.id == u.id
      && v.username == (if StringTruthy(b.username) then b.username.value else u.username)
      && v.email == (if StringTruthy(b.email) then b.email.value else u.email)
      && v.bio == (match b.bio case Undefined => u.bio case Null => None case Present(s) => Some(s))
  {
  }

  /** A body with no fields changes nothing. */
  lemma EmptyBodyKeepsProfile(u: User)
    ensures ApplyProfile(u, ProfilePatchOf(ProfileBody(Undefined, Undefined, Undefined))) == u
  {
  }

  /** Another user already holds the username the patch sets. */
  predicate UsernameTaken(users: map<ObjectId, User>, id: ObjectId, p: ProfilePatch) {
    p.username.Some? && exists other :: other in users && other != id && users[other].username == p.username.value
  }

  /** Another user already holds the email the patch sets. */
  predicate EmailTaken(users: map<ObjectId, User>, id: ObjectId, p: ProfilePatch) {
    p.email.Some? && exists other :: other in users && other != id && users[other].email == p.email.value
  }

  /** Each user sits under its own id; usernames and emails are unique. */
  ghost predicate ValidUsers(users: map<ObjectId, User>) {
    && (forall id :: id in users ==> users[id].id == id)
    && (forall a, b :: a in users && b in users && a != b ==>
          users[a].username != users[b].username && users[a].email != users[b].email)
  }

  /** An update that takes no other user's username or email keeps both unique. */
  lemma UpdateKeepsUnique(users: map<ObjectId, User>, id: ObjectId, p: ProfilePatch)
    requires ValidUsers(users) && id in users
    requires !UsernameTaken(users, id, p) && !EmailTaken(users, id, p)
    ensures ValidUsers(users[id := ApplyProfile(users[id], p)])
  {
    var v := ApplyProfile(users[id], p);
    var next := users[id := v];
    forall a, b | a in next && b in next && a != b
      ensures next[a].username != next[b].username && next[a].email != next[b].email
    {
      if a == id {
        assert next[b] == users[b];
      } else if b == id {
        assert next[a] == users[a];
      }
    }
  }

  const ProfileUpdated := "Profile updated successfully"

  class UserTable {
    var users: map<ObjectId, User>

    ghost predicate Valid()
      reads this
    {
      ValidUsers(users)
    }

    constructor ()
      ensures Valid() && users == map[]
    {
      users := map[];
    }

    /** `getProfile` for the authenticated `id`: the stored user, or null
        when there is none. */
    method GetProfile(id: ObjectId) returns (resp: Response<Option<User>>)
      ensures resp.status == 200 && resp.body.success && resp.body.message.None?
      ensures resp.body.data.Some?
      ensures resp.body.data.value.Some? <==> id in users
      ensures id in users ==> resp.body.data.value.value == users[id]
    {
      var user := if id in users then Some(users[id]) else None;
      resp := Response(200, Body(true, None, Some(user), None, None));
    }

    /** `updateProfile` for the authenticated `id`. The update validators of
        the User schema (`userErrors`) run first; an unknown id updates
        nothing and answers with null; a username or email another user holds
        breaks its unique index (username first); otherwise only this user
        changes. */
    method UpdateProfile(id: ObjectId, body: ProfileBody, userErrors: ProfilePatch -> seq<string>)
      returns (reply: Reply<Option<User>>)
      requires Valid()
      modifies this
      ensures Valid()
      ensures var p := ProfilePatchOf(body);
        if userErrors(p) != [] then
          reply == Next(ValidationError(userErrors(p))) && unchanged(this)
        else if id !in old(users) then
          reply == Send(Response(200, Body(true, Some(ProfileUpdated), Some(None), None, None))) && unchanged(this)
        else if UsernameTaken(old(users), id, p) then
          reply == Next(DuplicateKeyError("username")) && unchanged(this)
        else if EmailTaken(old(users), id, p) then
          reply == Next(DuplicateKeyError("email")) && unchanged(this)
        else
          var v := ApplyProfile(old(users)[id], p);
          && users == old(users)[id := v]
          && reply == Send(Response(200, Body(true, Some(ProfileUpdated), Some(Some(v)), None, None)))
    {
      var updateData := ProfilePatch(None, None, None);
      if StringTruthy(body.username) { updateData := updateData.(username := Some(body.username.value)); }
      if StringTruthy(body.email) { updateData := updateData.(email := Some(body.email.value)); }
      if !body.bio.Undefined? {
        updateData := updateData.(bio := Some(if body.bio.Present? then Some(body.bio.value) else None));
      }
      assert updateData == ProfilePatchOf(body);
      var errs := userErrors(updateData);
      if errs != [] {
        reply := Next(ValidationError(errs));
        return;
      }
      if id !in users {
        reply := Send(Response(200, Body(true, Some(ProfileUpdated), Some(None), None, None)));
        return;
      }
      if UsernameTaken(users, id, updateData) {
        reply := Next(DuplicateKeyError("username"));
        return;
      }
      if EmailTaken(users, id, updateData) {
        reply := Next(DuplicateKeyError("email"));
        return;
      }
      UpdateKeepsUnique(users, id, updateData);
      var v := ApplyProfile(users[id], updateData);
      users := users[id := v];
      reply := Send(Response(200, Body(true, Some(ProfileUpdated), Some(Some(v)), None, None)));
    }
  }
}
