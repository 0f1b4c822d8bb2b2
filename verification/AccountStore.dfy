/**
 Users, validation codes and logged-in certificates: the outcome of every transaction on them
 as a function, and the class whose methods make them step by step.
 */
module AccountStore {
  import opened Options
  import opened Mutes
  import opened Text
  import Rfc3339

  datatype User = User(verified: string, password: string, postnudge: string, email: string, muted: Mute)

  datatype Accounts = Accounts(users: map<string, User>, validation: map<string, string>, certfp: map<string, string>)

  datatype Error =
    | UserNotFound
    | NotVerified
    | WrongPassword
    | ShouldPostNudge
    | AlreadyExists
    | NameRequired
    | BadTerm
    | Aborted

  /** How a transaction ends: an error leaves the accounts as they were. */
  datatype Outcome = Outcome(err: Option<Error>, acc: Accounts)

  function Fail(e: Error, acc: Accounts): Outcome { Outcome(Some(e), acc) }

  function Commit(before: Accounts, after: Accounts, commit: bool): Outcome {
    if commit then Outcome(None, after) else Fail(Aborted, before)
  }

  // ---------- Reading transactions ----------

  /** The user of a certificate and whether the user is muted; the empty name is nobody. */
  function WhoIs(acc: Accounts, fp: string, now: int): (string, bool) {
    if fp !in acc.certfp then ("", false)
    else
      var name := acc.certfp[fp];
      if name !in acc.users then ("", false) else (name, IsMuted(acc.users[name].muted, now))
  }

  function CheckNudge(acc: Accounts, name: string): Option<Error> {
    if name !in acc.users then Some(UserNotFound)
    else if acc.users[name].postnudge == "1" then Some(ShouldPostNudge)
    else None
  }

  function CheckLogin(acc: Accounts, name: string, pass: string, matches: (string, string) -> bool): Option<Error> {
    if name !in acc.users then Some(UserNotFound)
    else if acc.users[name].verified != "1" then Some(NotVerified)
    else if !matches(acc.users[name].password, pass) then Some(WrongPassword)
    else None
  }

  datatype NameError = NameTooShort | NameTooLong | UnallowedChar | NameTaken

  /** validateUsername, on the name that will be stored. */
  function CheckName(acc: Accounts, rawName: string, a: Alphabet): Option<NameError> {
    var name := Trim(rawName, a.space);
    if name == [] then Some(NameTooShort)
    else if ByteLength(name) > USERNAME_MAX then Some(NameTooLong)
    else if exists c :: c in name && !WordChar(c, a) then Some(UnallowedChar)
    else if exists k :: k in acc.users && a.equalFold(k, name) then Some(NameTaken)
    else None
  }

  // ---------- Writing transactions ----------

  function Register(acc: Accounts, name: string, email: string, hash: string, code: string, smtp: bool, commit: bool)
    : Outcome
  {
    if name in acc.users then Fail(AlreadyExists, acc)
    else if name == "" then Fail(NameRequired, acc)
    else Commit(acc, acc.(users := acc.users[name := User(if smtp then "0" else "1", hash, "1", email, NotMuted)],
                          validation := acc.validation[code := name]), commit)
  }

  function Verify(acc: Accounts, code: string, commit: bool): Outcome {
    if code !in acc.validation then Fail(UserNotFound, acc)
    else
      var name := acc.validation[code];
      if name !in acc.users then Fail(UserNotFound, acc)
      else Commit(acc, acc.(users := acc.users[name := acc.users[name].(verified := "1")],
                            validation := acc.validation - {code}), commit)
  }

  function Login(acc: Accounts, fp: string, name: string, commit: bool): Outcome {
    Commit(acc, acc.(certfp := acc.certfp[fp := name]), commit)
  }

  function Logout(acc: Accounts, fp: string, commit: bool): Outcome {
    Commit(acc, acc.(certfp := acc.certfp - {fp}), commit)
  }

  function ClearNudge(acc: Accounts, name: string, commit: bool): Outcome {
    if name !in acc.users then Fail(UserNotFound, acc)
    else Commit(acc, acc.(users := acc.users[name := acc.users[name].(postnudge := "0")]), commit)
  }

  function MuteUser(acc: Accounts, name: string, term: Term, now: int, commit: bool): Outcome {
    if name !in acc.users then Fail(UserNotFound, acc)
    else
      match Deadline(term, now)
      case None => Fail(BadTerm, acc)
      case Some(m) => Commit(acc, acc.(users := acc.users[name := acc.users[name].(muted := m)]), commit)
  }

  function UnmuteUser(acc: Accounts, name: string, commit: bool): Outcome {
    if name !in acc.users then Fail(UserNotFound, acc)
    else Commit(acc, acc.(users := acc.users[name := acc.users[name].(muted := NotMuted)]), commit)
  }

  // ---------- What the transactions keep ----------

  /** Certificates belong to verified users, and validation codes to users. */
  ghost predicate Sound(acc: Accounts) {
    && (forall fp :: fp in acc.certfp ==> Verified(acc, acc.certfp[fp]))
    && (forall c :: c in acc.validation ==> acc.validation[c] in acc.users)
    && "" !in acc.users
  }

  ghost predicate Verified(acc: Accounts, name: string) {
    name in acc.users && acc.users[name].verified == "1"
  }

  ghost predicate Nudged(acc: Accounts, name: string) {
    name in acc.users && acc.users[name].postnudge != "1"
  }

  /** Users are never removed or replaced, verified is never taken back, and the nudge is never set again. */
  ghost predicate Grows(before: Accounts, after: Accounts) {
    forall u :: u in before.users ==>
      && u in after.users
      && after.users[u].password == before.users[u].password && after.users[u].email == before.users[u].email
      && (Verified(before, u) ==> Verified(after, u))
      && (Nudged(before, u) ==> Nudged(after, u))
  }

  ghost predicate Keeps(before: Accounts, after: Accounts) {
    Sound(after) && Grows(before, after)
  }

  lemma RegisterKeeps(acc: Accounts, name: string, email: string, hash: string, code: string, smtp: bool, commit: bool)
    requires Sound(acc)
    ensures Keeps(acc, Register(acc, name, email, hash, code, smtp, commit).acc)
  {
  }

  /** With sound accounts a validation code always names a user. */
  lemma VerifyKeeps(acc: Accounts, code: string, commit: bool)
    requires Sound(acc)
    ensures Keeps(acc, Verify(acc, code, commit).acc)
    ensures Verify(acc, code, commit).err == Some(UserNotFound) <==> code !in acc.validation
  {
  }

  /** Writing a login is sound because the user it names was verified when checked, and still is. */
  lemma LoginKeeps(acc: Accounts, fp: string, name: string, commit: bool)
    requires Sound(acc) && Verified(acc, name)
    ensures Keeps(acc, Login(acc, fp, name, commit).acc)
  {
  }

  lemma LogoutKeeps(acc: Accounts, fp: string, commit: bool)
    requires Sound(acc)
    ensures Keeps(acc, Logout(acc, fp, commit).acc)
  {
  }

  lemma ClearNudgeKeeps(acc: Accounts, name: string, commit: bool)
    requires Sound(acc)
    ensures Keeps(acc, ClearNudge(acc, name, commit).acc)
  {
  }

  lemma OtherMuteKeeps(acc: Accounts, name: string, m: Mute)
    requires Sound(acc) && name in acc.users
    ensures Keeps(acc, acc.(users := acc.users[name := acc.users[name].(muted := m)]))
  {
  }

  lemma MuteKeeps(acc: Accounts, name: string, term: Term, now: int, commit: bool)
    requires Sound(acc)
    ensures Keeps(acc, MuteUser(acc, name, term, now, commit).acc)
    ensures Keeps(acc, UnmuteUser(acc, name, commit).acc)
  {
    hide Deadline, Keeps;
    assert Keeps(acc, acc) by { NothingKeeps(acc); }
    if name in acc.users {
      OtherMuteKeeps(acc, name, NotMuted);
      if Deadline(term, now).Some? {
        OtherMuteKeeps(acc, name, Deadline(term, now).value);
      }
    }
  }

  lemma NothingKeeps(acc: Accounts)
    requires Sound(acc)
    ensures Keeps(acc, acc)
  {
  }

  // ---------- The buckets ----------

  /** A user's bucket: a text under each of the names verified, password, postnudge, email and muted. */
  type UserBucket = map<string, string>

  /** The text under a name; a name that was never put reads as empty. */
  function Get(fields: UserBucket, name: string): string {
    if name in fields then fields[name] else ""
  }

  /** The user that a bucket stands for. */
  function UserOf(fields: UserBucket): User {
    User(Get(fields, "verified"), Get(fields, "password"), Get(fields, "postnudge"), Get(fields, "email"),
         ReadMute(Get(fields, "muted")))
  }

  function UsersOf(users: map<string, UserBucket>): map<string, User> {
    map u | u in users :: UserOf(users[u])
  }

  lemma FieldNamesDiffer()
    ensures "verified" != "password" && "verified" != "postnudge" && "verified" != "email" && "verified" != "muted"
    ensures "password" != "postnudge" && "password" != "email" && "password" != "muted"
    ensures "postnudge" != "email" && "postnudge" != "muted" && "email" != "muted"
  {
    assert |"verified"| == 8 && |"postnudge"| == 9 && |"password"| == 8 && "verified"[0] != "password"[0];
  }

  lemma UsersOfAt(users: map<string, UserBucket>)
    ensures UsersOf(users).Keys == users.Keys
    ensures forall u :: u in users ==> UsersOf(users)[u] == UserOf(users[u])
  {
  }

  lemma UsersOfPut(users: map<string, UserBucket>, name: string, fields: UserBucket)
    ensures UsersOf(users[name := fields]) == UsersOf(users)[name := UserOf(fields)]
  {
  }

  /** The fields put by a registration. */
  lemma NewUser(fields: UserBucket, verified: string, hash: string, email: string)
    requires fields
          == map["verified" := verified]["password" := hash]["postnudge" := "1"]["email" := email]["muted" := ""]
    ensures UserOf(fields) == User(verified, hash, "1", email, NotMuted)
    ensures Get(fields, "muted") == ""
  {
    hide Rfc3339.Parse;
    FieldNamesDiffer();
  }

  /** Putting one field changes that field of the user and no other. */
  lemma PutField(fields: UserBucket, v: string)
    ensures UserOf(fields["verified" := v]) == UserOf(fields).(verified := v)
    ensures UserOf(fields["postnudge" := v]) == UserOf(fields).(postnudge := v)
    ensures UserOf(fields["muted" := v]) == UserOf(fields).(muted := ReadMute(v))
  {
    hide ReadMute;
    FieldNamesDiffer();
  }

  /** Every user has the same bucket as before, but for one field of one user. */
  ghost predicate OnlyField(before: map<string, UserBucket>, after: map<string, UserBucket>, name: string,
                            field: string)
  {
    && after.Keys == before.Keys
    && (forall u :: u in before && u != name ==> after[u] == before[u])
    && (name in before ==> forall k :: k != field ==> Get(after[name], k) == Get(before[name], k))
  }

  /** The database's buckets of accounts. */
  class AccountBuckets {
    var users: map<string, UserBucket>
    var validation: map<string, string>
    var certfp: map<string, string>

    function Contents(): Accounts
      reads this
    {
      Accounts(UsersOf(users), validation, certfp)
    }

    /** Every stored mute is empty, "permanent" or a time that can be parsed. */
    ghost predicate Valid()
      reads this
    {
      forall u :: u in users ==> Readable(Get(users[u], "muted"))
    }

    constructor ()
      ensures Valid() && Contents() == Accounts(map[], map[], map[])
    {
      users, validation, certfp := map[], map[], map[];
    }

    /** The transaction of OnRegister. */
    method OnRegister(name: string, email: string, hash: string, code: string, smtp: bool, commit: bool)
      returns (err: Option<Error>)
      requires Valid()
      modifies `users, `validation
      ensures Valid()
      ensures Outcome(err, Contents()) == Register(old(Contents()), name, email, hash, code, smtp, commit)
      ensures err.Some? ==> users == old(users) && validation == old(validation)
      ensures forall u :: u in old(users) ==> u in users && users[u] == old(users[u])
      ensures forall c :: c in old(validation) && c != code ==> c in validation && validation[c] == old(validation[c])
    {
      hide ReadMute, Rfc3339.Parse, UsersOf, UserOf;
      UsersOfAt(users);
      if name in users {
        return Some(AlreadyExists);
      }
      if name == "" {
        return Some(NameRequired);
      }
      var usersBefore, validationBefore := users, validation;
      var thisUser: UserBucket := map[];
      thisUser := thisUser["verified" := "0"];
      if !smtp {
        thisUser := thisUser["verified" := "1"];
      }
      thisUser := thisUser["password" := hash];
      thisUser := thisUser["postnudge" := "1"];
      thisUser := thisUser["email" := email];
      thisUser := thisUser["muted" := ""];
      NewUser(thisUser, if smtp then "0" else "1", hash, email);
      UsersOfPut(users, name, thisUser);
      users := users[name := thisUser];
      validation := validation[code := name];
      if !commit {
        users, validation := usersBefore, validationBefore;
        return Some(Aborted);
      }
      return None;
    }

    /** The transaction of VerifyUserHandler. With sound accounts the second error is never returned. */
    method VerifyUser(code: string, commit: bool) returns (err: Option<Error>)
      requires Valid()
      modifies `users, `validation
      ensures Valid()
      ensures Outcome(err, Contents()) == Verify(old(Contents()), code, commit)
      ensures err.Some? ==> users == old(users) && validation == old(validation)
      ensures err.None? ==> OnlyField(old(users), users, old(validation)[code], "verified")
    {
      hide ReadMute, Readable, UsersOf, UserOf;
      UsersOfAt(users);
      if code !in validation {
        return Some(UserNotFound);
      }
      var name := validation[code];
      if name !in users {
        return Some(UserNotFound);
      }
      var usersBefore, validationBefore := users, validation;
      PutField(users[name], "1");
      UsersOfPut(users, name, users[name]["verified" := "1"]);
      FieldNamesDiffer();
      users := users[name := users[name]["verified" := "1"]];
      validation := validation - {code};
      if !commit {
        users, validation := usersBefore, validationBefore;
        return Some(Aborted);
      }
      return None;
    }

    /** The second transaction of LoginUserHandler. */
    method WriteLogin(fp: string, name: string, commit: bool) returns (err: Option<Error>)
      requires Valid()
      modifies `certfp
      ensures Valid()
      ensures Outcome(err, Contents()) == Login(old(Contents()), fp, name, commit)
      ensures err.Some? ==> certfp == old(certfp)
      ensures err.None? ==> fp in certfp && certfp[fp] == name
      ensures certfp - {fp} == old(certfp) - {fp}
    {
      var before := certfp;
      certfp := certfp[fp := name];
      if !commit {
        certfp := before;
        return Some(Aborted);
      }
      return None;
    }

    method WriteLogout(fp: string, commit: bool) returns (err: Option<Error>)
      requires Valid()
      modifies `certfp
      ensures Valid()
      ensures Outcome(err, Contents()) == Logout(old(Contents()), fp, commit)
      ensures err.Some? ==> certfp == old(certfp)
      ensures err.None? ==> fp !in certfp
      ensures certfp - {fp} == old(certfp) - {fp}
    {
      var before := certfp;
      certfp := certfp - {fp};
      if !commit {
        certfp := before;
        return Some(Aborted);
      }
      return None;
    }

    method UpdateForPostNudge(name: string, commit: bool) returns (err: Option<Error>)
      requires Valid()
      modifies `users
      ensures Valid()
      ensures Outcome(err, Contents()) == ClearNudge(old(Contents()), name, commit)
      ensures err.Some? ==> users == old(users)
      ensures OnlyField(old(users), users, name, "postnudge")
    {
      hide ReadMute, Readable, UsersOf, UserOf;
      UsersOfAt(users);
      if name !in users {
        return Some(UserNotFound);
      }
      var before := users;
      PutField(users[name], "0");
      UsersOfPut(users, name, users[name]["postnudge" := "0"]);
      FieldNamesDiffer();
      users := users[name := users[name]["postnudge" := "0"]];
      if !commit {
        users := before;
        return Some(Aborted);
      }
      return None;
    }

    /** The command mute: the deadline is stored as text in the local zone. */
    method Mute(name: string, term: Term, now: Instant, zone: Rfc3339.Zone, commit: bool) returns (err: Option<Error>)
      requires Valid()
      modifies `users
      ensures Valid()
      ensures Outcome(err, Contents()) == MuteUser(old(Contents()), name, term, now, commit)
      ensures err.Some? ==> users == old(users)
      ensures err.None? ==> name in users && Deadline(term, now) == Some(ReadMute(Get(users[name], "muted")))
      ensures err.None? && term.Forever? ==> Get(users[name], "muted") == "permanent"
      ensures OnlyField(old(users), users, name, "muted")
    {
      hide ReadMute, Readable, MuteText, Storable, UsersOf, UserOf;
      UsersOfAt(users);
      if name !in users {
        return Some(UserNotFound);
      }
      var deadline := Deadline(term, now);
      if deadline.None? {
        return Some(BadTerm);
      }
      DeadlinesAreStorable(term, now, zone);
      ForeverText(now, zone);
      hide Deadline;
      var before, text := users, MuteText(deadline.value, zone);
      MuteRoundTrip(deadline.value, zone);
      PutField(users[name], text);
      UsersOfPut(users, name, users[name]["muted" := text]);
      users := users[name := users[name]["muted" := text]];
      if !commit {
        users := before;
        return Some(Aborted);
      }
      return None;
    }

    method Unmute(name: string, commit: bool) returns (err: Option<Error>)
      requires Valid()
      modifies `users
      ensures Valid()
      ensures Outcome(err, Contents()) == UnmuteUser(old(Contents()), name, commit)
      ensures err.Some? ==> users == old(users)
      ensures err.None? <==> name in old(users) && commit
      ensures err.None? ==> name in users && Get(users[name], "muted") == ""
      ensures OnlyField(old(users), users, name, "muted")
    {
      hide Rfc3339.Parse, UsersOf, UserOf;
      UsersOfAt(users);
      if name !in users {
        return Some(UserNotFound);
      }
      var before := users;
      PutField(users[name], "");
      UsersOfPut(users, name, users[name]["muted" := ""]);
      users := users[name := users[name]["muted" := ""]];
      if !commit {
        users := before;
        return Some(Aborted);
      }
      return None;
    }

    /** The reading transaction of GetUsernameFromFP. */
    method GetUsernameFromFP(fp: string, now: int) returns (name: string, isMuted: bool)
      ensures (name, isMuted) == WhoIs(Contents(), fp, now)
      ensures Sound(Contents()) && fp in certfp ==> name == certfp[fp]
    {
      hide ReadMute, IsMuted;
      if fp !in certfp {
        return "", false;
      }
      name := certfp[fp];
      if name !in users {
        return "", false; // the branch logged as a programming error
      }
      isMuted := IsUserCurrentlyMuted(Get(users[name], "muted"), now);
    }

    /** CheckForPostNudge. */
    method CheckForPostNudge(name: string) returns (err: Option<Error>)
      ensures err == CheckNudge(Contents(), name)
      ensures err.None? <==> Nudged(Contents(), name)
    {
      if name !in users {
        return Some(UserNotFound);
      }
      if Get(users[name], "postnudge") == "1" {
        return Some(ShouldPostNudge);
      }
      return None;
    }

    /** The reading transaction of LoginUserHandler, and the comparison of the password after it. */
    method CheckPassword(name: string, pass: string, matches: (string, string) -> bool) returns (err: Option<Error>)
      ensures err == CheckLogin(Contents(), name, pass, matches)
      ensures err.None? ==> Verified(Contents(), name)
    {
      if name !in users {
        return Some(UserNotFound);
      }
      if Get(users[name], "verified") != "1" {
        return Some(NotVerified);
      }
      var hash := Get(users[name], "password");
      if !matches(hash, pass) {
        return Some(WrongPassword);
      }
      return None;
    }

    /** validateUsername: the scan of the characters and the walk over all users. */
    method ValidateUsername(rawName: string, a: Alphabet) returns (err: Option<NameError>)
      ensures err == CheckName(Contents(), rawName, a)
      ensures err.None? ==> UsernameShape(Trim(rawName, a.space), a)
    {
      var name := Trim(rawName, a.space);
      if |name| == 0 {
        return Some(NameTooShort);
      }
      if ByteLength(name) > USERNAME_MAX {
        return Some(NameTooLong);
      }
      for i := 0 to |name|
        invariant forall c :: c in name[..i] ==> WordChar(c, a)
      {
        if !WordChar(name[i], a) {
          return Some(UnallowedChar);
        }
      }
      assert name[..|name|] == name;
      var rest := users.Keys;
      while rest != {}
        invariant rest <= users.Keys
        invariant forall k :: k in users && k !in rest ==> !a.equalFold(k, name)
        decreases |rest|
      {
        var k :| k in rest;
        if a.equalFold(k, name) {
          return Some(NameTaken);
        }
        rest := rest - {k};
      }
      return None;
    }
  }
}
