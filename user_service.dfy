/** UserServiceImpl: reading, creating, patching and deleting users. */
module UserService {
  import opened Common
  import opened Entities
  import opened Repository

  /** getUser: the stored user, or NotFound. */
  function GetUser(st: Store, userId: int): (r: Result<User>)
    reads st
    requires st.Valid()
    ensures r.Ok? <==> userId in st.users
    ensures r.Ok? ==> r.value == st.users[userId] && r.value.id == userId
    ensures r.Err? ==> r.error == NotFound
  {
    if userId in st.users then Ok(st.users[userId]) else Err(NotFound)
  }

  /** getUsers: every stored user, in id order. */
  function GetUsers(st: Store): (r: seq<User>)
    reads st
    requires st.Valid()
    ensures forall u | u in r :: u in st.users.Values
    ensures forall u | u in st.users.Values :: u in r
    ensures NoDuplicates(r)
  {
    OtherQueriesNoDuplicates(st, 0, 0, 0, [], None);
    Rows(st.users, st.nextUserId)
  }

  /** validationCheck: the email is present and contains '@'. */
  function ValidationCheck(u: UserInput): (r: Outcome)
    ensures r == Pass <==> u.email.Some? && '@' in u.email.value
    ensures r != Pass ==> r == Fail(Validation)
  {
    if u.email.None? || '@' !in u.email.value then Fail(Validation) else Pass
  }

  /** createUser: a valid user is saved under a fresh id; emails are not checked
      for duplicates here. */
  method CreateUser(st: Store, u: UserInput) returns (r: Result<User>)
    requires st.Valid()
    modifies st`users, st`nextUserId
    ensures st.Valid()
    ensures ValidationCheck(u).Fail? ==> r == Err(Validation) && st.users == old(st.users)
    ensures ValidationCheck(u) == Pass ==>
              && r.Ok? && r.value == User(r.value.id, u.name, u.email.value)
              && r.value.id !in old(st.users)
              && st.users == old(st.users)[r.value.id := r.value]
  {
    if ValidationCheck(u).Fail? {
      return Err(Validation);
    }
    var saved := st.InsertUser(User(0, u.name, u.email.value));
    r := Ok(saved);
  }

  /** validationCheckPatch: no other user's email contains the patch's email,
      ignoring case. A null email matches nobody. */
  function ValidationCheckPatch(st: Store, p: UserInput, userId: int): (r: Outcome)
    reads st
    requires st.Valid()
    ensures r == Fail(Duplicate) <==>
              p.email.Some? && exists u | u in st.users.Values :: u.id != userId && ContainsIgnoreCase(u.email, p.email.value)
    ensures r != Pass ==> r == Fail(Duplicate)
  {
    var clashes := UsersWithEmailLike(st, p.email, userId);
    if clashes != [] then
      assert clashes[0] in clashes;
      Fail(Duplicate)
    else Pass
  }

  /** The patched user: it keeps the target id, and a null name or email keeps the old value. */
  function Merged(current: User, p: UserInput): (u: User)
    ensures u.id == current.id
    ensures p.name.Some? ==> u.name == p.name
    ensures p.name.None? ==> u.name == current.name
    ensures p.email.Some? ==> u.email == p.email.value
    ensures p.email.None? ==> u.email == current.email
  {
    User(current.id, if p.name.Some? then p.name else current.name,
         if p.email.Some? then p.email.value else current.email)
  }

  /** A patch with neither field changes nothing. */
  lemma EmptyPatchKeeps(u: User)
    ensures Merged(u, UserInput(None, None)) == u
  {
  }

  /** Applying the same patch twice is applying it once. */
  lemma MergeIdempotent(u: User, p: UserInput)
    ensures Merged(Merged(u, p), p) == Merged(u, p)
  {
  }

  /** patchUser: the duplicate check comes before the existence check; on success
      only the target row changes. The patched email is not checked for '@'. */
  method PatchUser(st: Store, p: UserInput, userId: int) returns (r: Result<User>)
    requires st.Valid()
    modifies st`users
    ensures st.Valid()
    ensures old(ValidationCheckPatch(st, p, userId)).Fail? ==> r == Err(Duplicate) && st.users == old(st.users)
    ensures old(ValidationCheckPatch(st, p, userId)) == Pass && userId !in old(st.users) ==>
              r == Err(NotFound) && st.users == old(st.users)
    ensures old(ValidationCheckPatch(st, p, userId)) == Pass && userId in old(st.users) ==>
              && r == Ok(Merged(old(st.users[userId]), p))
              && st.users == old(st.users)[userId := r.value]
  {
    if ValidationCheckPatch(st, p, userId).Fail? {
      return Err(Duplicate);
    }
    if userId !in st.users {
      return Err(NotFound);
    }
    var patched := Merged(st.users[userId], p);
    st.UpdateUser(patched);
    r := Ok(patched);
  }

  /** deleteUser: an absent id is NotFound; otherwise exactly that user is removed.
      The store stays consistent when no booking or comment refers to the user. */
  method DeleteUser(st: Store, userId: int) returns (r: Outcome)
    requires st.Valid()
    modifies st`users
    ensures userId !in old(st.users) ==> r == Fail(NotFound) && st.users == old(st.users) && st.Valid()
    ensures userId in old(st.users) ==> r == Pass && st.users == old(st.users) - {userId}
    ensures !old(st.Referenced(userId)) ==> st.Valid()
  {
    if userId !in st.users {
      return Fail(NotFound);
    }
    st.DeleteUser(userId);
    r := Pass;
  }
}
