/**
 * The server's API views over abstract user and to-do tables: the
 * decisions each view makes, the response it sends, and how it changes
 * the tables.
 */
module Views {
  import opened Wrappers
  import opened Seqs
  import opened Ordering
  import TodoApi
  import Text

  /** A row of the user table. `password` is whatever credential the authentication backend checks. */
  datatype UserRow = UserRow(id: int, username: string, email: string, password: string)

  /** A row of the to-do table; `owner` is the owning user's id. */
  datatype TodoRow = TodoRow(id: int, owner: int, text: string, completed: bool, createdAt: int)

  /** Response bodies the views send. */
  datatype Body =
    | Message(message: string)
    | Error(error: string)
    | ErrorList(errors: seq<string>)
    | Deleted(deleted: nat)
    | TodoJson(todo: TodoApi.BackendTodo)
    | TodoList(todos: seq<TodoApi.BackendTodo>)
    | ValidationErrors(fieldErrors: seq<string>)
    | ServerError

  /** What a response does to one cookie. */
  datatype CookieOp = SetCookie(value: string, httpOnly: bool, secure: bool, sameSite: string) | DeleteCookie

  datatype Response = Response(status: int, body: Body, cookies: map<string, CookieOp>)

  /** The two tokens `RefreshToken.for_user` issues. */
  datatype Tokens = Tokens(access: string, refresh: string)

  /**
   * How the refresh serializer judged a refresh token: it raised
   * `InvalidToken`, it raised the token class's own `TokenError` (which the
   * view does not catch), or it produced the new tokens.
   */
  datatype RefreshCheck = InvalidToken | TokenFailure | Refreshed(access: string, rotated: Option<string>)

  const UsernameTakenMessage := "Username already taken"
  const EmailTakenMessage := "Email already registered"
  const RegisteredMessage := "User registered successfully"
  const InvalidLoginMessage := "Invalid username or password"
  const LoginMessage := "Login successful"
  const LoggedOutMessage := "Logged out"
  const TodoNotFoundMessage := "Todo not found"
  const NoRefreshMessage := "Refresh token not found in cookies"
  const BadRefreshMessage := "Invalid or expired refresh token"
  const RefreshedMessage := "Access token refreshed"

  /** The cookie both login and refresh write: http-only, not secure, same-site Lax. */
  function TokenCookie(value: string): (c: CookieOp)
    ensures c.SetCookie? && c.value == value && c.httpOnly && !c.secure && c.sameSite == "Lax"
  {
    SetCookie(value, true, false, "Lax")
  }

  predicate UsernameTaken(users: seq<UserRow>, username: string) {
    exists i :: 0 <= i < |users| && users[i].username == username
  }

  predicate EmailTaken(users: seq<UserRow>, email: string) {
    exists i :: 0 <= i < |users| && users[i].email == email
  }

  /**
   * The early returns of `register_user`: username first, then email, then
   * the password validators' messages; `None` when the user is created.
   */
  function RegisterRejection(users: seq<UserRow>, username: string, email: string, passwordErrors: seq<string>)
    : (r: Option<Response>)
    ensures r.None? <==> !UsernameTaken(users, username) && !EmailTaken(users, email) && passwordErrors == []
    ensures r.Some? ==> r.value.status == 400 && r.value.cookies == map[]
    ensures UsernameTaken(users, username) ==> r.value.body == Error(UsernameTakenMessage)
    ensures !UsernameTaken(users, username) && EmailTaken(users, email) ==> r.value.body == Error(EmailTakenMessage)
    ensures !UsernameTaken(users, username) && !EmailTaken(users, email) && passwordErrors != [] ==>
              r.value.body == ErrorList(passwordErrors)
  {
    if UsernameTaken(users, username) then Some(Response(400, Error(UsernameTakenMessage), map[]))
    else if EmailTaken(users, email) then Some(Response(400, Error(EmailTakenMessage), map[]))
    else if passwordErrors != [] then Some(Response(400, ErrorList(passwordErrors), map[]))
    else None
  }

  /** The users `User.objects.get(email=email)` looks among: exactly the rows with that email, in table order. */
  function UsersWithEmail(users: seq<UserRow>, email: string): (r: seq<UserRow>)
    ensures forall i :: 0 <= i < |r| ==> r[i].email == email
    ensures forall u :: u in r <==> u in users && u.email == email
    ensures r == [] <==> !EmailTaken(users, email)
  {
    var hasEmail := (u: UserRow) => u.email == email;
    FilterMultiset(users, hasEmail);
    var r := Filter(users, hasEmail);
    assert r != [] ==> r[0] in r;
    r
  }

  /**
   * `login_user`. `authenticate` is the authentication backend's verdict on
   * a username and password; `tokensFor` issues the tokens for a user id.
   * Several users sharing the email make `get` raise, which the framework
   * answers with a server error.
   */
  function Login(users: seq<UserRow>, email: string, password: string,
                 authenticate: (string, string) -> bool, tokensFor: int -> Tokens): (r: Response)
    ensures UsersWithEmail(users, email) == [] ==> r == Response(401, Error(InvalidLoginMessage), map[])
    ensures |UsersWithEmail(users, email)| > 1 ==> r.status == 500
    ensures |UsersWithEmail(users, email)| == 1 ==>
              var u := UsersWithEmail(users, email)[0];
              if authenticate(u.username, password) then
                r == Response(200, Message(LoginMessage),
                              map["access" := TokenCookie(tokensFor(u.id).access),
                                  "refresh" := TokenCookie(tokensFor(u.id).refresh)])
              else
                r == Response(401, Error(InvalidLoginMessage), map[])
  {
    var matches := UsersWithEmail(users, email);
    if matches == [] then Response(401, Error(InvalidLoginMessage), map[])
    else if |matches| > 1 then Response(500, ServerError, map[])
    else if authenticate(matches[0].username, password) then
      var tokens := tokensFor(matches[0].id);
      Response(200, Message(LoginMessage),
               map["access" := TokenCookie(tokens.access), "refresh" := TokenCookie(tokens.refresh)])
    else Response(401, Error(InvalidLoginMessage), map[])
  }

  /** An unknown email and a wrong password are answered identically, so the response does not reveal which. */
  lemma LoginFailuresIndistinguishable(users: seq<UserRow>, unknown: string, known: string, password: string,
                                       authenticate: (string, string) -> bool, tokensFor: int -> Tokens)
    requires UsersWithEmail(users, unknown) == []
    requires |UsersWithEmail(users, known)| == 1
    requires !authenticate(UsersWithEmail(users, known)[0].username, password)
    ensures Login(users, unknown, password, authenticate, tokensFor) == Login(users, known, password, authenticate, tokensFor)
    ensures Login(users, unknown, password, authenticate, tokensFor).status == 401
  {
  }

  /** A successful login sets exactly the two token cookies, both http-only with same-site Lax. */
  lemma LoginSuccessCookies(users: seq<UserRow>, email: string, password: string,
                            authenticate: (string, string) -> bool, tokensFor: int -> Tokens)
    ensures Login(users, email, password, authenticate, tokensFor).status == 200 ==>
              var c := Login(users, email, password, authenticate, tokensFor).cookies;
              c.Keys == {"access", "refresh"}
              && c["access"].SetCookie? && c["access"].httpOnly && c["access"].sameSite == "Lax"
              && c["refresh"].SetCookie? && c["refresh"].httpOnly && c["refresh"].sameSite == "Lax"
  {
  }

  /**
   * `CustomTokenRefreshView.post`. `check` is the refresh serializer's
   * verdict; a rotated refresh token is written back only when non-empty.
   * Only `InvalidToken` is caught; any other exception from `is_valid`
   * escapes the view and the framework answers with a server error.
   */
  function Refresh(cookies: map<string, string>, check: string -> RefreshCheck): (r: Response)
    ensures "refresh" !in cookies ==> r == Response(400, Error(NoRefreshMessage), map[])
    ensures "refresh" in cookies && check(cookies["refresh"]).InvalidToken? ==>
              r == Response(401, Error(BadRefreshMessage), map[])
    ensures "refresh" in cookies && check(cookies["refresh"]).TokenFailure? ==> r.status == 500 && r.cookies == map[]
    ensures r.status == 200 <==> "refresh" in cookies && check(cookies["refresh"]).Refreshed?
    ensures r.status == 200 ==>
              var c := check(cookies["refresh"]);
              r.body == Message(RefreshedMessage)
              && "access" in r.cookies && r.cookies["access"] == TokenCookie(c.access)
              && ("refresh" in r.cookies <==> c.rotated.Some? && c.rotated.value != "")
              && ("refresh" in r.cookies ==> r.cookies["refresh"] == TokenCookie(c.rotated.value))
              && r.cookies.Keys <= {"access", "refresh"}
  {
    if "refresh" !in cookies then Response(400, Error(NoRefreshMessage), map[])
    else match check(cookies["refresh"])
      case InvalidToken => Response(401, Error(BadRefreshMessage), map[])
      case TokenFailure => Response(500, ServerError, map[])
      case Refreshed(access, rotated) =>
        var written := map["access" := TokenCookie(access)];
        Response(200, Message(RefreshedMessage),
                 if rotated.Some? && rotated.value != "" then written["refresh" := TokenCookie(rotated.value)] else written)
  }

  /** The serializer's fields of one row: `id, text, completed, created_at`. */
  function Serialize(t: TodoRow): (b: TodoApi.BackendTodo)
    ensures b.id == t.id && b.text == t.text && b.completed == t.completed && b.createdAt == t.createdAt
  {
    TodoApi.BackendTodo(t.id, t.text, t.completed, t.createdAt)
  }

  function SerializeAll(ts: seq<TodoRow>): (bs: seq<TodoApi.BackendTodo>)
    ensures |bs| == |ts|
    ensures forall i :: 0 <= i < |ts| ==> bs[i] == Serialize(ts[i])
    decreases |ts|
  {
    if ts == [] then [] else [Serialize(ts[0])] + SerializeAll(ts[1..])
  }

  function RowCreatedAt(t: TodoRow): int { t.createdAt }

  /**
   * `Todo.objects.filter(user=request.user).order_by('-created_at')`: the
   * user's rows, and only those, newest first. Rows with equal times keep
   * their table order.
   */
  function OwnedNewestFirst(todos: seq<TodoRow>, user: int): (r: seq<TodoRow>)
    ensures multiset(r) == multiset(Filter(todos, (t: TodoRow) => t.owner == user))
    ensures forall t :: t in r <==> t in todos && t.owner == user
    ensures SortedDesc(r, RowCreatedAt)
  {
    var mine := Filter(todos, (t: TodoRow) => t.owner == user);
    FilterMultiset(todos, (t: TodoRow) => t.owner == user);
    SortDescSorted(mine, RowCreatedAt);
    var r := SortDesc(mine, RowCreatedAt);
    assert forall t :: t in r <==> t in mine by {
      forall t ensures t in r <==> t in mine {
        assert t in r <==> t in multiset(r);
        assert t in mine <==> t in multiset(mine);
      }
    }
    r
  }

  /** The GET branch of `todo_list_create`. */
  function ListTodos(todos: seq<TodoRow>, user: int): (r: Response)
    ensures r.status == 200 && r.body.TodoList? && r.cookies == map[]
    ensures r.body.todos == SerializeAll(OwnedNewestFirst(todos, user))
  {
    Response(200, TodoList(SerializeAll(OwnedNewestFirst(todos, user))), map[])
  }

  /** The index of the row `Todo.objects.get(id=todo_id, user=request.user)` finds, if any. */
  function FindTodo(todos: seq<TodoRow>, id: int, user: int): (k: Option<nat>)
    ensures k.None? <==> forall i :: 0 <= i < |todos| ==> !(todos[i].id == id && todos[i].owner == user)
    ensures k.Some? ==> k.value < |todos| && todos[k.value].id == id && todos[k.value].owner == user
    ensures k.Some? ==> forall i :: 0 <= i < k.value ==> !(todos[i].id == id && todos[i].owner == user)
    decreases |todos|
  {
    if todos == [] then None
    else if todos[0].id == id && todos[0].owner == user then Some(0)
    else match FindTodo(todos[1..], id, user)
      case None => None
      case Some(k) => Some(k + 1)
  }

  /** The table after toggling: the found row's `completed` negated, nothing else touched. */
  function Toggled(todos: seq<TodoRow>, id: int, user: int): (r: seq<TodoRow>)
    ensures |r| == |todos|
    ensures forall i :: 0 <= i < |todos| && !(todos[i].id == id && todos[i].owner == user) ==> r[i] == todos[i]
    ensures FindTodo(todos, id, user).Some? ==>
              var k := FindTodo(todos, id, user).value;
              r[k] == todos[k].(completed := !todos[k].completed)
  {
    match FindTodo(todos, id, user)
    case None => todos
    case Some(k) => todos[k := todos[k].(completed := !todos[k].completed)]
  }

  /** Toggling the same item twice restores the table. */
  lemma ToggleTwice(todos: seq<TodoRow>, id: int, user: int)
    ensures Toggled(Toggled(todos, id, user), id, user) == todos
  {
    var once := Toggled(todos, id, user);
    match FindTodo(todos, id, user)
    case None =>
    case Some(k) =>
      FindSame(todos, once, id, user);
  }

  /** Changing only `completed` does not change which row the lookup finds. */
  lemma {:induction false} FindSame(a: seq<TodoRow>, b: seq<TodoRow>, id: int, user: int)
    requires |a| == |b|
    requires forall i :: 0 <= i < |a| ==> a[i].id == b[i].id && a[i].owner == b[i].owner
    ensures FindTodo(a, id, user) == FindTodo(b, id, user)
    decreases |a|
  {
    if a != [] {
      FindSame(a[1..], b[1..], id, user);
    }
  }

  /** The rows `clear_completed` deletes: the user's completed ones. */
  function ClearedBy(user: int): TodoRow -> bool {
    (t: TodoRow) => t.owner == user && t.completed
  }

  /** The rows `clear_completed` keeps. */
  function KeptBy(user: int): TodoRow -> bool {
    (t: TodoRow) => !(t.owner == user && t.completed)
  }

  /** Clearing keeps exactly other users' rows and the user's incomplete rows, and deletes as many as it reports. */
  lemma {:induction false} ClearKeepsExactly(todos: seq<TodoRow>, user: int)
    ensures forall t :: t in Filter(todos, KeptBy(user)) <==> t in todos && (t.owner != user || !t.completed)
    ensures |todos| - |Filter(todos, KeptBy(user))| == Count(todos, ClearedBy(user))
    ensures IsSubsequence(Filter(todos, KeptBy(user)), todos)
  {
    FilterMultiset(todos, KeptBy(user));
    FilterIsSubsequence(todos, KeptBy(user));
    FilterLength(todos, KeptBy(user));
    CountComplement(todos, KeptBy(user), ClearedBy(user));
  }

  const BlankTextMessage := "This field may not be blank."

  /**
   * The serializer's complaints about a new to-do: a text that is blank
   * once stripped, then the other field errors.
   */
  function TodoErrors(text: string, fieldErrors: seq<string>): (r: seq<string>)
    ensures r == [] <==> Text.Strip(text) != [] && fieldErrors == []
    ensures Text.Strip(text) == [] ==> BlankTextMessage in r
  {
    (if Text.Strip(text) == [] then [BlankTextMessage] else []) + fieldErrors
  }

  /** A stored to-do text is never blank and never starts or ends with whitespace. */
  lemma AcceptedTodoTextTrimmed(text: string, fieldErrors: seq<string>)
    requires TodoErrors(text, fieldErrors) == []
    ensures Text.Strip(text) != []
    ensures !Text.IsPyWhitespace(Text.Strip(text)[0]) && !Text.IsPyWhitespace(Text.Strip(text)[|Text.Strip(text)| - 1])
    ensures Text.Strip(Text.Strip(text)) == Text.Strip(text)
  {
    Text.StripUnchanged(Text.Strip(text));
  }

  /**
   * Two addresses differing only in the case of the domain pass the
   * `register_user` email check separately and end up stored as one
   * address, so the second registration makes `User.objects.get` in
   * `login_user` find two users: a server error.
   */
  lemma MixedCaseEmailRegistersTwice(authenticate: (string, string) -> bool, tokensFor: int -> Tokens)
    ensures NormalizeEmail("bob@Example.com") == NormalizeEmail("bob@example.com") == "bob@example.com"
    ensures RegisterRejection([UserRow(1, "bob", "bob@example.com", "pw")], "rob", "bob@Example.com", []).None?
    ensures Login([UserRow(1, "bob", "bob@example.com", "pw"), UserRow(2, "rob", "bob@example.com", "pw")],
                  "bob@example.com", "pw", authenticate, tokensFor).status == 500
  {
    NormalizeMixedCaseDomain();
    NormalizeLowerDomain();
    DomainCaseNotTaken();
    SharedEmailFindsBoth([UserRow(1, "bob", "bob@example.com", "pw"), UserRow(2, "rob", "bob@example.com", "pw")],
                         "bob@example.com");
  }

  /** The raw email check tells "bob@Example.com" from a stored "bob@example.com". */
  lemma DomainCaseNotTaken()
    ensures RegisterRejection([UserRow(1, "bob", "bob@example.com", "pw")], "rob", "bob@Example.com", []).None?
  {
    var first := [UserRow(1, "bob", "bob@example.com", "pw")];
    assert !EmailTaken(first, "bob@Example.com") by {
      assert "bob@example.com"[4] != "bob@Example.com"[4];
    }
    assert !UsernameTaken(first, "rob");
  }

  /** Two distinct rows with the same email are both found by the lookup. */
  lemma SharedEmailFindsBoth(users: seq<UserRow>, email: string)
    requires |users| == 2 && users[0] != users[1] && users[0].email == email && users[1].email == email
    ensures |UsersWithEmail(users, email)| > 1
  {
    var found := UsersWithEmail(users, email);
    assert users[0] in users && users[1] in users;
    var i0 :| 0 <= i0 < |found| && found[i0] == users[0];
    var i1 :| 0 <= i1 < |found| && found[i1] == users[1];
    assert i0 != i1;
  }

  /**
   * A user registered as "bob@Example.com" is stored as "bob@example.com"
   * (`NormalizeMixedCaseDomain`); logging in with the address as typed gets 401.
   */
  lemma MixedCaseEmailLoginFails(authenticate: (string, string) -> bool, tokensFor: int -> Tokens)
    ensures Login([UserRow(1, "bob", "bob@example.com", "pw")], "bob@Example.com", "pw", authenticate, tokensFor)
            == Response(401, Error(InvalidLoginMessage), map[])
  {
    assert !EmailTaken([UserRow(1, "bob", "bob@example.com", "pw")], "bob@Example.com") by {
      assert "bob@example.com"[4] != "bob@Example.com"[4];
    }
  }

  /**
   * `r` is `t` with every character after position `i` ASCII lower-cased
   * and an '@' at `i`.
   */
  ghost predicate LowersDomain(t: string, i: nat, r: string) {
    i < |t| && |r| == |t| && r[..i] == t[..i] && r[i] == '@'
    && forall k :: i < k < |t| ==> r[k] == Text.LowerAscii(t[k])
  }

  /**
   * `BaseUserManager.normalize_email`, which `create_user` applies: the
   * stripped address is split at its last '@' and the part after it is
   * lower-cased; an address without '@' is kept exactly as given.
   */
  function NormalizeEmail(email: string): (r: string)
    ensures Text.LastIndexOf(Text.Strip(email), '@').None? ==> r == email
    ensures Text.LastIndexOf(Text.Strip(email), '@').Some? ==>
              LowersDomain(Text.Strip(email), Text.LastIndexOf(Text.Strip(email), '@').value, r)
  {
    var t := Text.Strip(email);
    match Text.LastIndexOf(t, '@')
    case None => email
    case Some(i) => t[..i] + "@" + Text.LowerAsciiString(t[i + 1..])
  }

  /** A normalised address normalises to itself, so a stored email is already in normal form. */
  lemma NormalizeEmailIdempotent(email: string)
    ensures NormalizeEmail(NormalizeEmail(email)) == NormalizeEmail(email)
  {
    var t := Text.Strip(email);
    if Text.LastIndexOf(t, '@').Some? {
      var i := Text.LastIndexOf(t, '@').value;
      var r := NormalizeEmail(email);
      NormalFormFixed(t, i, r);
      var rr := NormalizeEmail(r);
      assert LowersDomain(r, i, rr);
      LowersDomainTwice(t, i, r, rr);
    }
  }

  /** A lowered address is stripped already and keeps its last '@' where it was. */
  lemma NormalFormFixed(t: string, i: nat, r: string)
    requires t != [] ==> !Text.IsPyWhitespace(t[0]) && !Text.IsPyWhitespace(t[|t| - 1])
    requires Text.LastIndexOf(t, '@') == Some(i)
    requires LowersDomain(t, i, r)
    ensures Text.Strip(r) == r && Text.LastIndexOf(r, '@') == Some(i)
  {
    assert !Text.IsPyWhitespace(r[0]) by {
      if i > 0 { assert r[0] == r[..i][0] == t[..i][0] == t[0]; }
    }
    assert !Text.IsPyWhitespace(r[|r| - 1]) by {
      if i < |r| - 1 { Text.LowerAsciiFacts(t[|t| - 1], '@'); }
    }
    Text.StripUnchanged(r);
    forall k | i < k < |r| ensures r[k] != '@' {
      Text.LowerAsciiFacts(t[k], '@');
    }
    Text.LastIndexOfAt(r, '@', i);
  }

  /** Lowering the domain a second time changes nothing. */
  lemma LowersDomainTwice(t: string, i: nat, r: string, rr: string)
    requires LowersDomain(t, i, r) && LowersDomain(r, i, rr)
    ensures rr == r
  {
    forall k | 0 <= k < |r| ensures rr[k] == r[k] {
      if k < i {
        assert rr[k] == rr[..i][k] == r[..i][k] == r[k];
      } else if k > i {
        Text.LowerAsciiFacts(t[k], '@');
      }
    }
  }

  /** An address whose domain has capitals is stored in lower case: "bob@Example.com" becomes "bob@example.com". */
  lemma NormalizeMixedCaseDomain()
    ensures NormalizeEmail("bob@Example.com") == "bob@example.com"
  {
    MixedCaseParts("bob@Example.com");
  }

  /** The pieces of "bob@Example.com" that normalisation works on. */
  lemma MixedCaseParts(e: string)
    requires e == "bob@Example.com"
    ensures NormalizeEmail(e) == "bob@example.com"
  {
    MixedCaseShape(e);
    NormalizeStripped(e, 3);
    LowerExampleDomain();
  }

  lemma LowerExampleDomain()
    ensures "bob" + "@" + Text.LowerAsciiString("Example.com") == "bob@example.com"
  {
    assert Text.LowerAsciiString("Example.com") == "example.com";
  }

  lemma MixedCaseShape(e: string)
    requires e == "bob@Example.com"
    ensures !Text.IsPyWhitespace(e[0]) && !Text.IsPyWhitespace(e[|e| - 1])
    ensures e[3] == '@' && forall k :: 3 < k < |e| ==> e[k] != '@'
    ensures e[..3] == "bob" && e[4..] == "Example.com"
  {
  }

  /** An address that is stripped already keeps its local part and lower-cases what follows its last '@'. */
  lemma NormalizeStripped(e: string, i: nat)
    requires e != [] ==> !Text.IsPyWhitespace(e[0]) && !Text.IsPyWhitespace(e[|e| - 1])
    requires i < |e| && e[i] == '@' && forall k :: i < k < |e| ==> e[k] != '@'
    ensures NormalizeEmail(e) == e[..i] + "@" + Text.LowerAsciiString(e[i + 1..])
  {
    Text.StripUnchanged(e);
    Text.LastIndexOfAt(e, '@', i);
  }

  /** An address already in lower case is stored as given. */
  lemma NormalizeLowerDomain()
    ensures NormalizeEmail("bob@example.com") == "bob@example.com"
  {
    NormalizeMixedCaseDomain();
    NormalizeEmailIdempotent("bob@Example.com");
  }

  /** The server's tables and counters. */
  class Database {
    var users: seq<UserRow>
    var todos: seq<TodoRow>
    var nextUserId: int
    var nextTodoId: int
    /** Refresh tokens that may no longer be used. */
    var blacklist: set<string>

    /** Primary keys are unique and below the next id handed out; usernames are unique. */
    ghost predicate Valid()
      reads this
    {
      (forall i :: 0 <= i < |users| ==> users[i].id < nextUserId)
      && (forall i, j :: 0 <= i < j < |users| ==> users[i].id != users[j].id && users[i].username != users[j].username)
      && (forall i :: 0 <= i < |todos| ==> todos[i].id < nextTodoId)
      && (forall i, j :: 0 <= i < j < |todos| ==> todos[i].id != todos[j].id)
    }

    constructor ()
      ensures Valid()
      ensures users == [] && todos == [] && blacklist == {}
    {
      users, todos := [], [];
      nextUserId, nextTodoId := 1, 1;
      blacklist := {};
    }

    /**
     * `register_user`. `passwordErrors` are the messages the configured
     * password validators raise for `password` (none when it passes).
     * `create_user` stores the normalised email, and raises on an empty
     * username, which the view does not catch: the framework answers 500.
     */
    method RegisterUser(username: string, email: string, password: string, passwordErrors: seq<string>)
      returns (r: Response)
      requires Valid()
      modifies this`users, this`nextUserId
      ensures Valid()
      ensures RegisterRejection(old(users), username, email, passwordErrors).Some? ==>
                r == RegisterRejection(old(users), username, email, passwordErrors).value
                && users == old(users) && nextUserId == old(nextUserId)
      ensures RegisterRejection(old(users), username, email, passwordErrors).None? && username == "" ==>
                r == Response(500, ServerError, map[])
                && users == old(users) && nextUserId == old(nextUserId)
      ensures RegisterRejection(old(users), username, email, passwordErrors).None? && username != "" ==>
                r == Response(201, Message(RegisteredMessage), map[])
                && users == old(users) + [UserRow(old(nextUserId), username, NormalizeEmail(email), password)]
                && nextUserId == old(nextUserId) + 1
    {
      var rejection := RegisterRejection(users, username, email, passwordErrors);
      if rejection.Some? {
        return rejection.value;
      }
      if username == "" {
        return Response(500, ServerError, map[]);
      }
      users := users + [UserRow(nextUserId, username, NormalizeEmail(email), password)];
      nextUserId := nextUserId + 1;
      r := Response(201, Message(RegisteredMessage), map[]);
    }

    /**
     * `logout_view`. `decodes` says whether a refresh token parses; only a
     * non-empty one that parses is blacklisted. The response is the same
     * on every path.
     */
    method Logout(cookies: map<string, string>, decodes: string -> bool) returns (r: Response)
      modifies this`blacklist
      ensures r == Response(200, Message(LoggedOutMessage), map["access" := DeleteCookie, "refresh" := DeleteCookie])
      ensures blacklist ==
                if "refresh" in cookies && cookies["refresh"] != "" && decodes(cookies["refresh"])
                then old(blacklist) + {cookies["refresh"]}
                else old(blacklist)
    {
      r := Response(200, Message(LoggedOutMessage), map[]);
      if "refresh" in cookies && cookies["refresh"] != "" {
        var token := cookies["refresh"];
        if decodes(token) {
          blacklist := blacklist + {token};
        }
      }
      r := r.(cookies := r.cookies["access" := DeleteCookie]);
      r := r.(cookies := r.cookies["refresh" := DeleteCookie]);
    }

    /**
     * The POST branch of `todo_list_create`. The serializer strips the text
     * and refuses it when nothing is left; `fieldErrors` are its other
     * complaints about the body; `now` is the creation time.
     */
    method CreateTodo(user: int, text: string, fieldErrors: seq<string>, now: int) returns (r: Response)
      requires Valid()
      modifies this`todos, this`nextTodoId
      ensures Valid()
      ensures TodoErrors(text, fieldErrors) != [] ==>
                r == Response(400, ValidationErrors(TodoErrors(text, fieldErrors)), map[])
                && todos == old(todos) && nextTodoId == old(nextTodoId)
      ensures TodoErrors(text, fieldErrors) == [] ==>
                var row := TodoRow(old(nextTodoId), user, Text.Strip(text), false, now);
                todos == old(todos) + [row] && nextTodoId == old(nextTodoId) + 1
                && r == Response(201, TodoJson(Serialize(row)), map[])
    {
      var errors := TodoErrors(text, fieldErrors);
      if errors != [] {
        return Response(400, ValidationErrors(errors), map[]);
      }
      var row := TodoRow(nextTodoId, user, Text.Strip(text), false, now);
      todos := todos + [row];
      nextTodoId := nextTodoId + 1;
      r := Response(201, TodoJson(Serialize(row)), map[]);
    }

    /** `toggle_todo`: a missing or foreign id is a 404 and changes nothing. */
    method ToggleTodo(user: int, id: int) returns (r: Response)
      requires Valid()
      modifies this`todos
      ensures Valid()
      ensures todos == Toggled(old(todos), id, user)
      ensures FindTodo(old(todos), id, user).None? ==> r == Response(404, Error(TodoNotFoundMessage), map[])
      ensures FindTodo(old(todos), id, user).Some? ==>
                r == Response(200, TodoJson(Serialize(todos[FindTodo(old(todos), id, user).value])), map[])
    {
      var found := FindTodo(todos, id, user);
      if found.None? {
        return Response(404, Error(TodoNotFoundMessage), map[]);
      }
      var k := found.value;
      var row := todos[k];
      row := row.(completed := !row.completed);
      todos := todos[k := row];
      r := Response(200, TodoJson(Serialize(row)), map[]);
    }

    /** `clear_completed`: deletes the user's completed rows and reports how many. */
    method ClearCompleted(user: int) returns (r: Response)
      requires Valid()
      modifies this`todos
      ensures Valid()
      ensures todos == Filter(old(todos), KeptBy(user))
      ensures r == Response(204, Deleted(Count(old(todos), ClearedBy(user))), map[])
    {
      var before := todos;
      todos := Filter(todos, KeptBy(user));
      ClearKeepsExactly(before, user);
      assert DistinctIds(before);
      FilterDistinctIds(before, KeptBy(user));
      r := Response(204, Deleted(|before| - |todos|), map[]);
    }
  }

  /** No two rows share an id. */
  ghost predicate DistinctIds(s: seq<TodoRow>) {
    forall i, j :: 0 <= i < j < |s| ==> s[i].id != s[j].id
  }

  /** Deleting rows keeps primary keys unique. */
  lemma {:induction false} FilterDistinctIds(s: seq<TodoRow>, p: TodoRow -> bool)
    requires DistinctIds(s)
    ensures DistinctIds(Filter(s, p))
    decreases |s|
  {
    if s != [] {
      assert DistinctIds(s[1..]) by {
        forall i, j | 0 <= i < j < |s[1..]| ensures s[1..][i].id != s[1..][j].id {
          assert s[1..][i] == s[i + 1] && s[1..][j] == s[j + 1];
        }
      }
      FilterDistinctIds(s[1..], p);
      if p(s[0]) {
        var g := Filter(s[1..], p);
        FilterMultiset(s[1..], p);
        forall k | 0 <= k < |g| ensures g[k].id != s[0].id {
          assert g[k] in s[1..];
          var m :| 0 <= m < |s[1..]| && s[1..][m] == g[k];
          assert s[m + 1] == g[k];
        }
        assert Filter(s, p) == [s[0]] + g;
      }
    }
  }
}
