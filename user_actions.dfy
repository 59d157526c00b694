/** The user profile written when someone signs up. */
module UserActions {
  import opened Wrappers
  import opened Records

  /** The signed-up account as the authentication service returns it. */
  datatype AuthUser = AuthUser(uid: string, email: Option<string>, displayName: Option<string>,
                               phoneNumber: Option<string>)

  /** `a || b || null` over optional texts, where "" counts as missing. */
  function FirstGiven(a: Option<string>, b: Option<string>): (r: Option<string>)
    ensures r.Some? ==> r.value != "" && (r == a || r == b)
    ensures r.None? <==> (a.None? || a == Some("")) && (b.None? || b == Some(""))
    ensures a.Some? && a.value != "" ==> r == a
  {
    if a.Some? && a.value != "" then a else if b.Some? && b.value != "" then b else None
  }

  /** The profile record: the account's uid and e-mail as they are, the
      supplied name else the account's name else null, the phone number or
      null, always the role "user", and the server time `now`. */
  function UserData(user: AuthUser, extraName: Option<string>, now: string): (p: UserProfile)
    ensures p.uid == user.uid && p.email == user.email && p.createdAt == now
    ensures p.role == "user"
    ensures p.displayName == FirstGiven(extraName, user.displayName)
    ensures p.phone == FirstGiven(user.phoneNumber, None)
  {
    UserProfile(user.uid, user.email, FirstGiven(extraName, user.displayName),
                FirstGiven(user.phoneNumber, None), "user", now)
  }

  /** `createUserInFirestore`: a merge write of the profile under the uid.
      The write is not awaited and its failure, `writeFails`, is only
      reported elsewhere, so the call succeeds either way. */
  method CreateUserInFirestore(db: RecordStore, user: AuthUser, extraName: Option<string>, now: string,
                               writeFails: bool)
    returns (res: Result<()>)
    modifies db
    ensures !db.connected ==> res == Err("Failed to create user profile due to database connection issue.")
    ensures db.connected ==> res.Ok?
    ensures db.users == (if db.connected && !writeFails then old(db.users)[user.uid := UserData(user, extraName, now)]
                         else old(db.users))
    ensures db.cars == old(db.cars) && db.bookings == old(db.bookings)
    ensures db.agreements == old(db.agreements) && db.testimonials == old(db.testimonials)
  {
    if !db.connected {
      return Err("Failed to create user profile due to database connection issue.");
    }
    if !writeFails {
      db.users := db.users[user.uid := UserData(user, extraName, now)];
    }
    return Ok(());
  }

  /** Writing the profile again resets the role: an administrator who signs
      up again under the same uid is an ordinary user afterwards. */
  lemma ProfileWriteResetsRole(users: map<string, UserProfile>, user: AuthUser, extraName: Option<string>,
                               now: string)
    requires user.uid in users && users[user.uid].role == "admin"
    ensures users[user.uid := UserData(user, extraName, now)][user.uid].role == "user"
  {
  }
}
