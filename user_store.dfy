/**
  The backend's in-memory user store and the registration on top of it. The store maps user
  names to users; it is seeded with one plain user and one business user, refuses to save a
  user name twice, and loads a user as the security framework's user details (user name,
  password and the `ROLE_`-prefixed authorities of its roles).
 */
module UserStore {
  import opened Wrappers

  /** A user record: the credentials, the roles and the optional personal details. */
  datatype User = User(username: string, password: string, roles: seq<string>, details: Option<Details>)

  /** First name, last name and address, which the seeded users carry and registered users lack. */
  datatype Details = Details(firstname: string, lastname: string, address: string)

  /** What loading a user yields: its name, its password and its granted authorities. */
  datatype UserDetails = UserDetails(username: string, password: string, authorities: set<string>)

  const UserName: string := "user"
  const BusinessUserName: string := "businessuser"
  const UserRole: string := "USER"
  const BusinessUserRole: string := "BUSINESSUSER"

  /** The prefix the framework puts before each role, and which a role must not already carry. */
  const RolePrefix: string := "ROLE_"

  /** The two users the store starts with; passwords carry the `{noop}` marker of unencoded passwords. */
  function Seed(): (r: map<string, User>)
    ensures r.Keys == {UserName, BusinessUserName}
    ensures r[UserName].password == "{noop}user" && r[UserName].roles == [UserRole]
    ensures r[BusinessUserName].password == "{noop}businessuser" && r[BusinessUserName].roles == [BusinessUserRole]
    ensures forall name :: name in r ==> r[name].username == name
  {
    map[
      UserName := User(UserName, "{noop}" + UserName, [UserRole], Some(Details("User", "Example", "1234 Address Street"))),
      BusinessUserName := User(BusinessUserName, "{noop}" + BusinessUserName, [BusinessUserRole], Some(Details("Business", "User", "4321 Business Ave")))]
  }

  /**
    `getUser`: the user details built from a user. Each role `r` is granted as the authority
    `ROLE_r`; the builder refuses a role that already starts with `ROLE_`, and the details
    themselves refuse an empty user name (an empty password is accepted).
   */
  function GetUser(user: User): (r: Result<UserDetails>)
    ensures r.Success? <==> user.username != "" && forall k :: 0 <= k < |user.roles| ==> !(RolePrefix <= user.roles[k])
    ensures r.Failure? ==> r.error == "IllegalArgumentException"
    ensures r.Success? ==> r.value.username == user.username && r.value.password == user.password
    ensures r.Success? ==> forall a :: a in r.value.authorities <==> exists k :: 0 <= k < |user.roles| && a == RolePrefix + user.roles[k]
  {
    if exists k :: 0 <= k < |user.roles| && RolePrefix <= user.roles[k] then Failure("IllegalArgumentException")
    else if user.username == "" then Failure("IllegalArgumentException")
    else Success(UserDetails(user.username, user.password, set k | 0 <= k < |user.roles| :: RolePrefix + user.roles[k]))
  }

  /** The message `loadUserByUsername` throws for an unknown user name. */
  function NotPresent(username: string): string {
    "user = " + username + " not present"
  }

  /** `loadUserByUsername` over a map of users. */
  function Load(users: map<string, User>, username: string): (r: Result<UserDetails>)
    ensures username !in users ==> r == Failure(NotPresent(username))
    ensures username in users ==> r == GetUser(users[username])
  {
    if username in users then GetUser(users[username]) else Failure(NotPresent(username))
  }

  /** `saveUser` over a map of users: a user name already present is refused, and the map is then unchanged. */
  function Save(users: map<string, User>, user: User): (r: Result<map<string, User>>)
    ensures r.Failure? <==> user.username in users
    ensures r.Failure? ==> r.error == "User already exists"
    ensures r.Success? ==> r.value.Keys == users.Keys + {user.username} && r.value[user.username] == user
    ensures r.Success? ==> forall name :: name in users ==> r.value[name] == users[name]
  {
    if user.username in users then Failure("User already exists") else Success(users[user.username := user])
  }

  /** The store. */
  class InMemoryUserDetailsService {
    var users: map<string, User>

    constructor ()
      ensures users == Seed()
    {
      users := map[];
      new;
      users := users[UserName := User(UserName, "{noop}" + UserName, [UserRole], Some(Details("User", "Example", "1234 Address Street")))];
      users := users[BusinessUserName := User(BusinessUserName, "{noop}" + BusinessUserName, [BusinessUserRole], Some(Details("Business", "User", "4321 Business Ave")))];
    }

    /** `loadUserByUsername`: the user's details, or an error naming the missing user. */
    method LoadUserByUsername(username: string) returns (r: Result<UserDetails>)
      ensures username !in users ==> r == Failure(NotPresent(username))
      ensures username in users ==> r == GetUser(users[username])
    {
      if username in users {
        r := GetUser(users[username]);
      } else {
        r := Failure(NotPresent(username));
      }
    }

    /** `saveUser`: `error` is the exception's message; on success exactly the new entry is added. */
    method SaveUser(user: User) returns (error: Option<string>)
      modifies this
      ensures error.Some? <==> user.username in old(users)
      ensures error.Some? ==> error.value == "User already exists" && users == old(users)
      ensures error.None? ==> Save(old(users), user) == Success(users)
    {
      if user.username in users {
        return Some("User already exists");
      }
      users := users[user.username := user];
      return None;
    }
  }

  /** The registration request; only the user name and the password are used. */
  datatype RegistrationRequest = RegistrationRequest(username: string, email: string, password: string, firstname: string, lastname: string, address: string)

  /** The user `registerUser` saves for a request: the password marked `{noop}`, the single role USER. */
  function Registered(request: RegistrationRequest): (r: User)
    ensures r.username == request.username && r.password == "{noop}" + request.password
    ensures r.roles == [UserRole] && r.details.None?
  {
    User(request.username, "{noop}" + request.password, [UserRole], None)
  }

  /** The registration service, over the store it was given. */
  class AuthService {
    const userDetailsService: InMemoryUserDetailsService

    constructor (store: InMemoryUserDetailsService)
      ensures userDetailsService == store
    {
      userDetailsService := store;
    }

    /** `registerUser`: saves the registered user and answers with the success message; a duplicate propagates. */
    method RegisterUser(request: RegistrationRequest) returns (r: Result<map<string, string>>)
      modifies userDetailsService
      ensures r.Failure? <==> request.username in old(userDetailsService.users)
      ensures r.Failure? ==> r.error == "User already exists" && userDetailsService.users == old(userDetailsService.users)
      ensures r.Success? ==> r.value == map["message" := "User registered successfully"]
      ensures r.Success? ==> Save(old(userDetailsService.users), Registered(request)) == Success(userDetailsService.users)
    {
      var error := userDetailsService.SaveUser(Registered(request));
      if error.Some? {
        return Failure(error.value);
      }
      return Success(map["message" := "User registered successfully"]);
    }
  }

  // ---------------------------------------------------------------- properties

  /** The seeded users load as `user`/`{noop}user` with ROLE_USER and `businessuser`/`{noop}businessuser` with ROLE_BUSINESSUSER. */
  lemma SeededUsersLoad()
    ensures Load(Seed(), UserName) == Success(UserDetails("user", "{noop}user", {"ROLE_USER"}))
    ensures Load(Seed(), BusinessUserName) == Success(UserDetails("businessuser", "{noop}businessuser", {"ROLE_BUSINESSUSER"}))
  {
    SeededRolesUnprefixed();
    assert UserName != "" && BusinessUserName != "";
    SingleRole(Seed()[UserName]);
    SingleRole(Seed()[BusinessUserName]);
    assert RolePrefix + UserRole == "ROLE_USER";
    assert RolePrefix + BusinessUserRole == "ROLE_BUSINESSUSER";
  }

  /** Neither seeded role starts with the prefix the framework adds. */
  lemma SeededRolesUnprefixed()
    ensures !(RolePrefix <= UserRole) && !(RolePrefix <= BusinessUserRole)
  {
    assert RolePrefix[0] == 'R' && UserRole[0] == 'U' && BusinessUserRole[0] == 'B';
  }

  /** A named user with one role that lacks the prefix loads with exactly that role's authority. */
  lemma SingleRole(user: User)
    requires user.username != "" && |user.roles| == 1 && !(RolePrefix <= user.roles[0])
    ensures GetUser(user) == Success(UserDetails(user.username, user.password, {RolePrefix + user.roles[0]}))
  {
    var a := GetUser(user).value.authorities;
    assert RolePrefix + user.roles[0] in a;
    assert a == {RolePrefix + user.roles[0]};
  }

  /** After a successful save, loading the saved name yields the saved user's details, and every other name loads as before. */
  lemma SaveThenLoad(users: map<string, User>, user: User, name: string)
    requires Save(users, user).Success?
    ensures Load(Save(users, user).value, user.username) == GetUser(user)
    ensures name != user.username ==> Load(Save(users, user).value, name) == Load(users, name)
  {
  }

  /** Saving the same user name twice always fails the second time. */
  lemma SaveTwiceFails(users: map<string, User>, first: User, second: User)
    requires Save(users, first).Success? && second.username == first.username
    ensures Save(Save(users, first).value, second) == Failure("User already exists")
  {
  }

  /**
    A registered user loads with the `{noop}`-marked password and the single authority ROLE_USER,
    whatever password was requested; a user registered under the empty name is stored but cannot be loaded.
   */
  lemma RegisteredUserLoads(users: map<string, User>, request: RegistrationRequest)
    requires Save(users, Registered(request)).Success?
    ensures request.username != "" ==>
      Load(Save(users, Registered(request)).value, request.username) == Success(UserDetails(request.username, "{noop}" + request.password, {"ROLE_USER"}))
    ensures request.username == "" ==>
      Load(Save(users, Registered(request)).value, request.username) == Failure("IllegalArgumentException")
  {
    SeededRolesUnprefixed();
    if request.username != "" {
      SingleRole(Registered(request));
      assert RolePrefix + UserRole == "ROLE_USER";
    }
  }

  /** Neither seeded user name can be registered again. */
  lemma SeededNamesAreTaken(request: RegistrationRequest)
    requires request.username == UserName || request.username == BusinessUserName
    ensures Save(Seed(), Registered(request)).Failure?
  {
  }
}
