/**
 * Account registration and login: the checks on the submitted fields, the
 * normalisation of usernames (trim, then lower-case) and roles, the user
 * store keyed by normalised username, and the public view of a user.
 * Password hashing and comparison are opaque: the hash is a parameter and
 * the comparison a caller-supplied predicate.
 */
module Auth {
  import opened Wrappers

  // ---------------------------------------------------------------- strings

  /** The characters `String.prototype.trim` removes: white space and line terminators. */
  predicate IsWhitespace(c: char) {
    c == '\t' || c == '\n' || c == '\U{000B}' || c == '\U{000C}' || c == '\r' || c == ' ' ||
    c == '\U{00A0}' || c == '\U{1680}' || ('\U{2000}' <= c <= '\U{200A}') ||
    c == '\U{2028}' || c == '\U{2029}' || c == '\U{202F}' || c == '\U{205F}' ||
    c == '\U{3000}' || c == '\U{FEFF}'
  }

  predicate Trimmed(s: string) {
    s == [] || (!IsWhitespace(s[0]) && !IsWhitespace(s[|s| - 1]))
  }

  /** Drops leading white space. */
  function TrimStart(s: string): (r: string)
    ensures |r| <= |s|
    ensures r == [] || !IsWhitespace(r[0])
  {
    if s != [] && IsWhitespace(s[0]) then TrimStart(s[1..]) else s
  }

  /** `TrimStart` keeps a suffix of `s`, and everything it drops is white space. */
  lemma {:induction false} TrimStartDrops(s: string)
    ensures TrimStart(s) == s[|s| - |TrimStart(s)|..]
    ensures forall k :: 0 <= k < |s| - |TrimStart(s)| ==> IsWhitespace(s[k])
  {
    if s != [] && IsWhitespace(s[0]) {
      TrimStartDrops(s[1..]);
      assert s[1..][|s| - 1 - |TrimStart(s)|..] == s[|s| - |TrimStart(s)|..];
      forall k | 1 <= k < |s| - |TrimStart(s)| ensures IsWhitespace(s[k]) {
        assert s[k] == s[1..][k - 1];
      }
    }
  }

  /** Drops trailing white space. */
  function TrimEnd(s: string): (r: string)
    ensures |r| <= |s|
    ensures r == [] || !IsWhitespace(r[|r| - 1])
    ensures r == [] || r[0] == s[0]
  {
    if s != [] && IsWhitespace(s[|s| - 1]) then TrimEnd(s[..|s| - 1]) else s
  }

  /** `TrimEnd` keeps a prefix of `s`, and everything it drops is white space. */
  lemma {:induction false} TrimEndDrops(s: string)
    ensures TrimEnd(s) == s[..|TrimEnd(s)|]
    ensures forall k :: |TrimEnd(s)| <= k < |s| ==> IsWhitespace(s[k])
  {
    if s != [] && IsWhitespace(s[|s| - 1]) {
      var p := s[..|s| - 1];
      TrimEndDrops(p);
      assert p[..|TrimEnd(s)|] == s[..|TrimEnd(s)|];
      forall k | |TrimEnd(s)| <= k < |s| - 1 ensures IsWhitespace(s[k]) {
        assert s[k] == p[k];
      }
    }
  }

  /** `trim()`: drops the white space at both ends. */
  function Trim(s: string): (r: string)
    ensures Trimmed(r)
  {
    TrimEnd(TrimStart(s))
  }

  /** `Trim(s)` is the slice of `s` that starts after the leading white space. */
  lemma TrimIsSlice(s: string)
    ensures var i := |s| - |TrimStart(s)|; i + |Trim(s)| <= |s| && Trim(s) == s[i..i + |Trim(s)|]
  {
    var t := TrimStart(s);
    var r := TrimEnd(t);
    var i := |s| - |t|;
    TrimStartDrops(s);
    TrimEndDrops(t);
    calc {
      r;
      t[..|r|];
      s[i..][..|r|];
      s[i..i + |r|];
    }
  }

  /** Everything `trim()` removes, before and after that slice, is white space. */
  lemma TrimDropsOnlyWhitespace(s: string)
    ensures forall k :: 0 <= k < |s| - |TrimStart(s)| ==> IsWhitespace(s[k])
    ensures forall k :: |s| - |TrimStart(s)| + |Trim(s)| <= k < |s| ==> IsWhitespace(s[k])
  {
    var t := TrimStart(s);
    var i := |s| - |t|;
    TrimStartDrops(s);
    TrimEndDrops(t);
    forall k | i + |Trim(s)| <= k < |s| ensures IsWhitespace(s[k]) {
      assert s[k] == t[k - i];
    }
  }

  /** A string that is already trimmed is its own trim. */
  lemma TrimFixesTrimmed(s: string)
    requires Trimmed(s)
    ensures Trim(s) == s
  {
  }

  /** Lower-cases one character; only ASCII letters are mapped. */
  function LowerChar(c: char): char {
    if 'A' <= c <= 'Z' then (c as int + 32) as char else c
  }

  /** `toLowerCase()`, character by character. */
  function Lower(s: string): (r: string)
    ensures |r| == |s|
  {
    if s == [] then [] else [LowerChar(s[0])] + Lower(s[1..])
  }

  /** Each character of `Lower(s)` is the lower-case form of the character of `s` at that position. */
  lemma {:induction false} LowerPointwise(s: string)
    ensures forall k :: 0 <= k < |s| ==> Lower(s)[k] == LowerChar(s[k])
  {
    if s != [] {
      LowerPointwise(s[1..]);
      forall k | 1 <= k < |s| ensures Lower(s)[k] == LowerChar(s[k]) {
        assert Lower(s)[k] == Lower(s[1..])[k - 1];
      }
    }
  }

  /** Lower-casing neither adds nor removes white space at the ends, and is idempotent. */
  lemma LowerKeepsShape(s: string)
    ensures Trimmed(s) ==> Trimmed(Lower(s))
    ensures Lower(Lower(s)) == Lower(s)
  {
    LowerPointwise(s);
    LowerPointwise(Lower(s));
  }

  /** `trim().toLowerCase()`: the canonical form of a username. */
  function Normalize(s: string): (r: string)
    ensures Trimmed(r)
  {
    LowerKeepsShape(Trim(s));
    Lower(Trim(s))
  }

  /** A normalised username has no upper-case ASCII letter. */
  lemma NormalizeHasNoUpperCase(s: string)
    ensures forall k :: 0 <= k < |Normalize(s)| ==> !('A' <= Normalize(s)[k] <= 'Z')
  {
    LowerPointwise(Trim(s));
  }

  /** Normalising twice is normalising once. */
  lemma NormalizeIdempotent(s: string)
    ensures Normalize(Normalize(s)) == Normalize(s)
  {
    var t := Trim(s);
    LowerKeepsShape(t);
    TrimFixesTrimmed(Lower(t));
  }

  // ---------------------------------------------------------------- registration

  /** A request body field: absent or falsy, a string, or some other truthy value. */
  datatype Field = Missing | Text(value: string) | NonString

  /** `!username || typeof username !== "string" || username.trim().length < 3` fails the check. */
  predicate UsernameAccepted(username: Field) {
    username.Text? && |Trim(username.value)| >= 3
  }

  /** The password is checked untrimmed: at least 6 characters. */
  predicate PasswordAccepted(password: Field) {
    password.Text? && |password.value| >= 6
  }

  /** The stored role: "farmer" or "provider" as given, anything else becomes "farmer". */
  function NormalizeRole(role: Field): (r: string)
    ensures r == "farmer" || r == "provider"
    ensures role.Text? && role.value in {"farmer", "provider"} ==> r == role.value
  {
    if role.Text? && role.value in ["farmer", "provider"] then role.value else "farmer"
  }

  const UsernameTooShort := "Username must be at least 3 characters."
  const PasswordTooShort := "Password must be at least 6 characters."
  const UsernameTaken := "An account with that username or email already exists."
  const NoSuchAccount := "No account found with that username or email."
  const WrongPassword := "Incorrect password. Please try again."
  const NotAuthenticated := "Not authenticated"

  /** A stored user; the password is kept only as its hash. */
  datatype UserRecord = UserRecord(id: string, username: string, passwordHash: string, role: string)

  /** What a response shows of a user: never the password or its hash. */
  datatype PublicUser = PublicUser(id: string, username: string, role: string)

  function PublicView(u: UserRecord): (p: PublicUser)
    ensures p.id == u.id && p.username == u.username && p.role == u.role
  {
    PublicUser(u.id, u.username, u.role)
  }

  datatype AuthReply = Accepted(status: int, user: PublicUser) | Refused(status: int, message: string)

  /**
   * The store invariant: each user sits under its own username, which is in
   * normalised form, so no two users share a normalised username.
   */
  ghost predicate StoreValid(users: map<string, UserRecord>) {
    forall k :: k in users ==> users[k].username == k && Normalize(k) == k
  }

  /** Storing a user under the normalised form of a submitted name keeps the store invariant. */
  lemma StoreValidAdd(users: map<string, UserRecord>, submitted: string, u: UserRecord)
    requires StoreValid(users) && u.username == Normalize(submitted)
    ensures StoreValid(users[u.username := u])
  {
    NormalizeIdempotent(submitted);
    var next := users[u.username := u];
    forall k | k in next ensures next[k].username == k && Normalize(k) == k {
      if k != u.username {
        assert next[k] == users[k];
      }
    }
  }

  /** The outcome of a registration: the new store and the reply. */
  datatype Registration = Registration(users: map<string, UserRecord>, reply: AuthReply)

  /**
   * POST /api/auth/register on a store. The username is checked first, then
   * the password, then that the normalised username is free.
   */
  function Registered(users: map<string, UserRecord>, username: Field, password: Field, role: Field,
                      newId: string, passwordHash: string): Registration
  {
    if !UsernameAccepted(username) then Registration(users, Refused(400, UsernameTooShort))
    else if !PasswordAccepted(password) then Registration(users, Refused(400, PasswordTooShort))
    else
      var name := Normalize(username.value);
      if name in users then Registration(users, Refused(400, UsernameTaken))
      else
        var u := UserRecord(newId, name, passwordHash, NormalizeRole(role));
        Registration(users[name := u], Accepted(201, PublicView(u)))
  }

  /**
   * Every refusal is a 400 that leaves the store as it was, in the order
   * username, password, uniqueness; an accepted registration adds exactly one
   * user, under the normalised username and with the normalised role, and
   * answers 201 with its public view.
   */
  lemma RegisteredOutcome(users: map<string, UserRecord>, username: Field, password: Field, role: Field,
                          newId: string, passwordHash: string)
    ensures var o := Registered(users, username, password, role, newId, passwordHash);
      (o.reply.Refused? ==> o.reply.status == 400 && o.users == users) &&
      (!UsernameAccepted(username) ==> o.reply == Refused(400, UsernameTooShort)) &&
      (UsernameAccepted(username) && !PasswordAccepted(password) ==> o.reply == Refused(400, PasswordTooShort)) &&
      (UsernameAccepted(username) && PasswordAccepted(password) && Normalize(username.value) in users ==>
        o.reply == Refused(400, UsernameTaken)) &&
      (o.reply.Accepted? ==>
        var name := Normalize(username.value);
        name !in users && name in o.users && o.users == users[name := o.users[name]] &&
        o.users[name] == UserRecord(newId, name, passwordHash, NormalizeRole(role)) &&
        o.reply == Accepted(201, PublicView(o.users[name])))
  {
  }

  /** Registration keeps the store invariant, so normalised usernames stay unique. */
  lemma RegisteredKeepsStore(users: map<string, UserRecord>, username: Field, password: Field, role: Field,
                             newId: string, passwordHash: string)
    requires StoreValid(users)
    ensures StoreValid(Registered(users, username, password, role, newId, passwordHash).users)
  {
    var o := Registered(users, username, password, role, newId, passwordHash);
    if o.reply.Accepted? {
      var name := Normalize(username.value);
      StoreValidAdd(users, username.value, UserRecord(newId, name, passwordHash, NormalizeRole(role)));
    }
  }

  class UserStore {
    var users: map<string, UserRecord>

    ghost predicate Valid()
      reads this
    {
      StoreValid(users)
    }

    constructor ()
      ensures Valid() && users == map[]
    {
      users := map[];
    }

    /**
     * POST /api/auth/register. The username is checked first, then the
     * password, then that the normalised username is free; each failure is a
     * 400 that stores nothing. Otherwise the user is stored under its
     * normalised username with the normalised role and answered with 201.
     */
    method Register(username: Field, password: Field, role: Field, newId: string, passwordHash: string)
      returns (reply: AuthReply)
      requires Valid()
      modifies this`users
      ensures Valid()
      ensures Registration(users, reply) == Registered(old(users), username, password, role, newId, passwordHash)
    {
      RegisteredKeepsStore(users, username, password, role, newId, passwordHash);
      if !UsernameAccepted(username) {
        return Refused(400, UsernameTooShort);
      }
      if !PasswordAccepted(password) {
        return Refused(400, PasswordTooShort);
      }
      var normalizedRole := NormalizeRole(role);
      var name := Normalize(username.value);
      if name in users {
        return Refused(400, UsernameTaken);
      }
      var u := UserRecord(newId, name, passwordHash, normalizedRole);
      users := users[name := u];
      reply := Accepted(201, PublicView(u));
    }
  }

  /**
   * POST /api/auth/login with a username present: the route normalises it,
   * then the login strategy normalises it again and looks it up; a missing
   * user or a password that does not match the stored hash is a 401.
   */
  function Login(users: map<string, UserRecord>, username: string, password: string,
                 passwordMatches: (string, string) -> bool): (r: AuthReply)
    ensures r.Accepted? <==> Normalize(username) in users && passwordMatches(password, users[Normalize(username)].passwordHash)
    ensures r.Accepted? ==> r == Accepted(200, PublicView(users[Normalize(username)]))
    ensures r.Refused? ==> r.status == 401
    ensures r.Refused? ==> (r.message == NoSuchAccount <==> Normalize(username) !in users)
    ensures r.Refused? ==> (r.message == WrongPassword <==> Normalize(username) in users)
  {
    NormalizeIdempotent(username);
    var key := Normalize(Normalize(username));
    if key !in users then Refused(401, NoSuchAccount)
    else if !passwordMatches(password, users[key].passwordHash) then Refused(401, WrongPassword)
    else Accepted(200, PublicView(users[key]))
  }

  /** Two spellings with the same normalised form log into the same account. */
  lemma LoginIgnoresSpelling(users: map<string, UserRecord>, u1: string, u2: string, password: string,
                             passwordMatches: (string, string) -> bool)
    requires Normalize(u1) == Normalize(u2)
    ensures Login(users, u1, password, passwordMatches) == Login(users, u2, password, passwordMatches)
  {
    NormalizeIdempotent(u1);
    NormalizeIdempotent(u2);
  }

  /** Once registered, the account is found by login under the submitted spelling. */
  lemma RegisteredUserCanLogIn(users: map<string, UserRecord>, username: string, u: UserRecord, password: string,
                               passwordMatches: (string, string) -> bool)
    requires u.username == Normalize(username) && passwordMatches(password, u.passwordHash)
    ensures Login(users[u.username := u], username, password, passwordMatches) == Accepted(200, PublicView(u))
  {
  }

  /** GET /api/auth/me: 401 without a signed-in user, else the user's public view. */
  function Me(current: Option<UserRecord>): (r: AuthReply)
    ensures r.Refused? <==> current.None?
    ensures r.Refused? ==> r == Refused(401, NotAuthenticated)
    ensures current.Some? ==> r == Accepted(200, PublicView(current.value))
  {
    if current.None? then Refused(401, NotAuthenticated) else Accepted(200, PublicView(current.value))
  }
}
