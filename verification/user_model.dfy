/** The stored user document of `src/models/user.models.ts` (`IUser`), and
    the id query of `getUserById` (`src/services/user.service.ts:20-28`). */
module UserModel {
  import opened Common
  import opened Http
  import opened ObjectId

  datatype User = User(
    id: Option<string>,
    authId: Option<string>,
    profileImageUrl: Option<string>,
    firstName: string,
    lastName: string,
    email: string,
    agreePrivacy: bool,
    receiveCommunications: bool,
    plan: int)

  /** The message of the cast error a non-ObjectId key raises. */
  function CastFailure(key: string): string
  {
    "Cast to ObjectId failed for value \"" + key + "\" at path \"_id\" for model \"Users\""
  }

  /** The first stored user with the given id, or `null`. */
  function FirstWithId(users: seq<User>, key: string): (r: Lookup<User>)
    ensures !r.Threw?
    ensures r.Found? <==> exists i :: 0 <= i < |users| && users[i].id == Some(key)
    ensures r.Found? ==> r.value.id == Some(key)
  {
    if |users| == 0 then NotFound
    else if users[0].id == Some(key) then Found(users[0])
    else
      var r := FirstWithId(users[1..], key);
      assert forall i :: 1 <= i < |users| ==> users[i] == users[1..][i - 1];
      r
  }

  /** `UserDB.findOne({ _id: key })` over the stored users, in storage
      order. The connection sets `ignoreUndefined`, so an undefined key is
      dropped from the filter and `{}` matches the first stored user; a key
      that is not ObjectId text fails the cast and throws. */
  function FindUserById(users: seq<User>, key: Option<string>): (r: Lookup<User>)
    ensures key.None? ==> (r.Found? <==> |users| > 0) && !r.Threw?
    ensures key.None? && |users| > 0 ==> r == Found(users[0])
    ensures key.Some? && !ObjectIdText(key.value) ==> r == Threw(CastFailure(key.value))
    ensures key.Some? && ObjectIdText(key.value) ==>
              && !r.Threw?
              && (r.Found? <==> exists i :: 0 <= i < |users| && users[i].id == key)
              && (r.Found? ==> r.value.id == key)
  {
    if key.None? then (if |users| == 0 then NotFound else Found(users[0]))
    else if !ObjectIdText(key.value) then Threw(CastFailure(key.value))
    else FirstWithId(users, key.value)
  }
}
